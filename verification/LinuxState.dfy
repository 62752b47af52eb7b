/**
 What LinuxBackend does to kernel state it does not own, as functions on values:
 `struct serial_struct`, the FTDI latency timer, and `struct serial_rs485`.

 Every system call may fail; a record of failures is an argument of each operation, so
 that a claim about all arguments is a claim about every pattern of failures. A failing
 call has no effect.
*/
module LinuxState {
  import opened Types
  import opened KernelStructs

  const ASYNC_LOW_LATENCY: Word := 0x2000
  const FLAGS_INDEX := 4
  const BUF_INTS := 32
  const LATENCY_TARGET_MS := 1

  /** The kernel side: the serial struct as an int array, the timer of an FTDI port, the RS-485 bytes. */
  datatype Kernel = Kernel(serial: seq<Word>, timer: Option<int>, rs485: seq<Byte>, fds: set<int>)
  {
    predicate Valid() {
      |serial| == BUF_INTS && |rs485| == RS485_SIZE
    }
  }

  /** The fields of the backend object. */
  datatype Backend = Backend(
    fd: int,
    config: Option<SerialConfig>,
    savedFlags: Option<Word>,
    savedTimer: Option<int>,
    savedRs485: Option<RS485State>)

  datatype Linux = Linux(order: ByteOrder, kernel: Kernel, backend: Backend)

  datatype TimerFault = TimerFine | TimerHidden | TimerUnreadable | TimerGarbage

  /** Which calls of `open` fail, and the number `os.open` hands out. */
  datatype OpenFaults = OpenFaults(
    newFd: nat,
    osOpen: bool,
    lock: bool,
    apply: bool,
    readFlags: bool,
    rereadFlags: bool,
    writeFlags: bool,
    timer: TimerFault,
    writeTimer: bool,
    rs485: Rs485Faults)

  datatype Rs485Faults = Rs485Faults(read: bool, write: bool)

  datatype ConfigureFaults = ConfigureFaults(apply: bool, rs485: Rs485Faults, restoreRs485: bool)

  /** Which restore writes of `close` fail. */
  datatype CloseFaults = CloseFaults(rereadFlags: bool, writeFlags: bool, writeTimer: bool, writeRs485: bool)

  /** `BadDelay` is the error of rounding a delay that is not finite. */
  datatype Outcome = Normal | RuntimeError | OsError | Unsupported | ValueError | BadDelay

  // ---------------------------------------------------------------------
  // Single calls
  // ---------------------------------------------------------------------

  /** `write_serial_flags`: read the whole struct, replace one slot, write it back. */
  function WriteFlags(k: Kernel, flags: Word): Kernel
    requires k.Valid()
  {
    k.(serial := k.serial[FLAGS_INDEX := flags])
  }

  /** The flags found before, and whether a write was needed and every call went through. */
  function LowLatencyOk(k: Kernel, f: OpenFaults): bool
    requires k.Valid()
  {
    !f.readFlags && (k.serial[FLAGS_INDEX] & ASYNC_LOW_LATENCY != 0 || (!f.rereadFlags && !f.writeFlags))
  }

  function LowLatencyKernel(k: Kernel, f: OpenFaults): Kernel
    requires k.Valid()
  {
    if LowLatencyOk(k, f) && k.serial[FLAGS_INDEX] & ASYNC_LOW_LATENCY == 0 then
      WriteFlags(k, k.serial[FLAGS_INDEX] | ASYNC_LOW_LATENCY)
    else k
  }

  lemma AlreadySet(flags: Word)
    requires flags & ASYNC_LOW_LATENCY != 0
    ensures flags | ASYNC_LOW_LATENCY == flags
  {
  }

  datatype TuneResult = Tuned(saved: Option<int>) | TuneFailed(why: Outcome)

  function TuneTimer(k: Kernel, f: OpenFaults): TuneResult {
    if k.timer.None? || f.timer == TimerHidden then Tuned(None)
    else if f.timer == TimerUnreadable then TuneFailed(OsError)
    else if f.timer == TimerGarbage then TuneFailed(ValueError)
    else if k.timer.value != LATENCY_TARGET_MS && f.writeTimer then TuneFailed(OsError)
    else Tuned(k.timer)
  }

  function TunedKernel(k: Kernel, f: OpenFaults): Kernel {
    if TuneTimer(k, f).Tuned? && TuneTimer(k, f).saved.Some? then k.(timer := Some(LATENCY_TARGET_MS)) else k
  }

  function ReadRs485(l: Linux): RS485State
    requires l.kernel.Valid()
  {
    FromBytes(l.order, l.kernel.rs485).value
  }

  function WriteRs485(order: ByteOrder, k: Kernel, s: RS485State): Kernel {
    k.(rs485 := ToBytes(order, s))
  }

  // ---------------------------------------------------------------------
  // Steps of open and configure
  // ---------------------------------------------------------------------

  datatype Stepped = Stepped(state: Linux, outcome: Outcome)

  /** A refused optional feature raises only under the RAISE policy. */
  function Refused(policy: UnsupportedPolicy): Outcome {
    if policy == Raise then Unsupported else Normal
  }

  function EnableFlags(l: Linux, policy: UnsupportedPolicy, f: OpenFaults): (s: Stepped)
    requires l.kernel.Valid()
    ensures s.state.kernel.Valid() && s.state.order == l.order
  {
    if LowLatencyOk(l.kernel, f) then
      Stepped(
        l.(kernel := LowLatencyKernel(l.kernel, f),
           backend := l.backend.(savedFlags := Some(l.kernel.serial[FLAGS_INDEX]))),
        Normal)
    else if policy == Raise then Stepped(l, Unsupported)
    else Stepped(l.(backend := l.backend.(savedFlags := None)), Normal)
  }

  function EnableTimer(l: Linux, policy: UnsupportedPolicy, f: OpenFaults): (s: Stepped)
    requires l.kernel.Valid()
    ensures s.state.kernel.Valid() && s.state.order == l.order
  {
    match TuneTimer(l.kernel, f)
    case Tuned(saved) =>
      Stepped(l.(kernel := TunedKernel(l.kernel, f), backend := l.backend.(savedTimer := saved)), Normal)
    case TuneFailed(why) =>
      if why == ValueError then Stepped(l, ValueError)
      else if policy == Raise then Stepped(l, Unsupported)
      else Stepped(l.(backend := l.backend.(savedTimer := None)), Normal)
  }

  function EnableLowLatency(l: Linux, policy: UnsupportedPolicy, f: OpenFaults): (s: Stepped)
    requires l.kernel.Valid()
    ensures s.state.kernel.Valid() && s.state.order == l.order
  {
    var flags := EnableFlags(l, policy, f);
    if flags.outcome != Normal then flags else EnableTimer(flags.state, policy, f)
  }

  function ApplyRs485(l: Linux, c: RS485Config, policy: UnsupportedPolicy, f: Rs485Faults): (s: Stepped)
    requires l.kernel.Valid()
    ensures s.state.kernel.Valid() && s.state.order == l.order
  {
    if f.read then Stepped(l, Refused(policy))
    else
      var current := ReadRs485(l);
      var saved := if l.backend.savedRs485.None? then Some(current) else l.backend.savedRs485;
      var l1 := l.(backend := l.backend.(savedRs485 := saved));
      var merged := WithFlagsFrom(current, c);
      if merged.None? then Stepped(l1, BadDelay)
      else if f.write then Stepped(l1, Refused(policy))
      else Stepped(l1.(kernel := WriteRs485(l.order, l.kernel, merged.value)), Normal)
  }

  /** Whether that step raises: a failed call does under RAISE, a delay that is not finite always does once it is reached. */
  predicate Rs485Raises(c: RS485Config, policy: UnsupportedPolicy, f: Rs485Faults) {
    if f.read then policy == Raise else !c.FiniteDelays() || (f.write && policy == Raise)
  }

  // ---------------------------------------------------------------------
  // The operations
  // ---------------------------------------------------------------------

  function CloseStep(l: Linux, f: CloseFaults): (r: Linux)
    requires l.kernel.Valid()
    ensures r.kernel.Valid() && r.order == l.order
  {
    if l.backend.fd < 0 then l
    else
      var b := l.backend;
      var k := l.kernel;
      var k1 := if b.savedFlags.Some? && !f.rereadFlags && !f.writeFlags then WriteFlags(k, b.savedFlags.value) else k;
      var k2 := if b.savedTimer.Some? && !f.writeTimer then k1.(timer := Some(b.savedTimer.value)) else k1;
      var k3 := if b.savedRs485.Some? && !f.writeRs485 then WriteRs485(l.order, k2, b.savedRs485.value) else k2;
      Linux(l.order, k3.(fds := k3.fds - {b.fd}), Backend(-1, b.config, None, None, None))
  }

  /**
   `super().open`: the descriptor, the lock and termios; a failure leaves no descriptor open.
   The system never hands out a number that is in use, so such a choice counts as a failure.
  */
  function PosixOpen(l: Linux, config: SerialConfig, f: OpenFaults): (s: Stepped)
    requires l.kernel.Valid()
    ensures s.state.kernel.Valid() && s.state.order == l.order
  {
    if l.backend.fd >= 0 then Stepped(l, RuntimeError)
    else if f.osOpen || f.newFd in l.kernel.fds then Stepped(l, OsError)
    else if (config.exclusive && f.lock) || f.apply then Stepped(l, OsError)
    else
      Stepped(
        l.(kernel := l.kernel.(fds := l.kernel.fds + {f.newFd}),
           backend := l.backend.(fd := f.newFd, config := Some(config))),
        Normal)
  }

  /** The optional features, in order; the first failure ends the attempt. */
  function Tune(l: Linux, config: SerialConfig, f: OpenFaults): (s: Stepped)
    requires l.kernel.Valid()
    ensures s.state.kernel.Valid() && s.state.order == l.order
  {
    ThenRs485(if config.lowLatency then EnableLowLatency(l, config.policy, f) else Stepped(l, Normal), config, f)
  }

  function ThenRs485(low: Stepped, config: SerialConfig, f: OpenFaults): (s: Stepped)
    requires low.state.kernel.Valid()
    ensures s.state.kernel.Valid() && s.state.order == low.state.order
  {
    if low.outcome != Normal || config.rs485.None? then low
    else ApplyRs485(low.state, config.rs485.value, config.policy, f.rs485)
  }

  function OpenStep(l: Linux, config: SerialConfig, f: OpenFaults, cf: CloseFaults): (s: Stepped)
    requires l.kernel.Valid()
    ensures s.state.kernel.Valid() && s.state.order == l.order
  {
    var base := PosixOpen(l, config, f);
    if base.outcome != Normal then base
    else
      var t := Tune(base.state, config, f);
      if t.outcome == Normal then t else Stepped(CloseStep(t.state, cf), t.outcome)
  }

  function ConfigureStep(l: Linux, config: SerialConfig, f: ConfigureFaults): (s: Stepped)
    requires l.kernel.Valid()
    ensures s.state.kernel.Valid() && s.state.order == l.order
  {
    if l.backend.fd < 0 || f.apply then Stepped(l, OsError)
    else
      var l1 := l.(backend := l.backend.(config := Some(config)));
      if config.rs485.Some? then ApplyRs485(l1, config.rs485.value, config.policy, f.rs485)
      else if l.backend.savedRs485.Some? then
        Stepped(
          l1.(kernel := if f.restoreRs485 then l.kernel
                        else WriteRs485(l.order, l.kernel, l.backend.savedRs485.value),
              backend := l1.backend.(savedRs485 := None)),
          Normal)
      else Stepped(l1, Normal)
  }

  // ---------------------------------------------------------------------
  // The invariant: nothing saved means the kernel is untouched, and what is saved is untouched
  // ---------------------------------------------------------------------

  predicate FlagsInv(l: Linux, pristine: Kernel)
    requires l.kernel.Valid() && pristine.Valid()
  {
    && (forall i | 0 <= i < BUF_INTS && i != FLAGS_INDEX :: l.kernel.serial[i] == pristine.serial[i])
    && (match l.backend.savedFlags
        case None => l.kernel.serial[FLAGS_INDEX] == pristine.serial[FLAGS_INDEX]
        case Some(saved) => saved == pristine.serial[FLAGS_INDEX])
  }

  predicate TimerInv(l: Linux, pristine: Kernel) {
    match l.backend.savedTimer
    case None => l.kernel.timer == pristine.timer
    case Some(saved) => l.kernel.timer.Some? && pristine.timer == Some(saved)
  }

  predicate Rs485Inv(l: Linux, pristine: Kernel)
    requires l.kernel.Valid() && pristine.Valid()
  {
    && (l.kernel.rs485 == pristine.rs485 || l.kernel.rs485[14..] == Zeros(PADDING))
    && (match l.backend.savedRs485
        case None => FromBytes(l.order, l.kernel.rs485) == FromBytes(l.order, pristine.rs485)
        case Some(saved) => FromBytes(l.order, pristine.rs485) == Some(saved))
  }

  /** The descriptors of the process are the ones it had, plus the backend's while it is open. */
  predicate FdInv(l: Linux, pristine: Kernel) {
    && (l.backend.fd >= 0 ==> l.backend.fd !in pristine.fds)
    && l.kernel.fds == pristine.fds + (if l.backend.fd >= 0 then {l.backend.fd} else {})
    && (l.backend.fd < 0 ==> l.backend.savedFlags.None? && l.backend.savedTimer.None? && l.backend.savedRs485.None?)
  }

  predicate Inv(l: Linux, pristine: Kernel) {
    && l.kernel.Valid() && pristine.Valid()
    && FlagsInv(l, pristine) && TimerInv(l, pristine) && Rs485Inv(l, pristine) && FdInv(l, pristine)
  }
}
