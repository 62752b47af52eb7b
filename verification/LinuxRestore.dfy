/**
 The save/restore discipline of LinuxBackend over whole runs: any number of sessions,
 any policy, any pattern of failing calls.
*/
module LinuxRestore {
  import opened Types
  import opened KernelStructs
  import opened LinuxState

  // ---------------------------------------------------------------------
  // Each piece keeps the invariant
  // ---------------------------------------------------------------------

  lemma EnableFlagsKeeps(l: Linux, p: Kernel, policy: UnsupportedPolicy, f: OpenFaults)
    requires Inv(l, p) && l.backend.fd >= 0 && l.backend.savedFlags.None?
    ensures Inv(EnableFlags(l, policy, f).state, p)
  {
  }

  lemma EnableTimerKeeps(l: Linux, p: Kernel, policy: UnsupportedPolicy, f: OpenFaults)
    requires Inv(l, p) && l.backend.fd >= 0 && l.backend.savedTimer.None?
    ensures Inv(EnableTimer(l, policy, f).state, p)
  {
    var timer, saved := EnableTimer(l, policy, f).state.kernel.timer, EnableTimer(l, policy, f).state.backend.savedTimer;
    OnlyTimerKeeps(l, p, timer, saved);
    assert EnableTimer(l, policy, f).state
           == l.(kernel := l.kernel.(timer := timer), backend := l.backend.(savedTimer := saved));
  }

  lemma OnlyTimerKeeps(l: Linux, p: Kernel, timer: Option<int>, saved: Option<int>)
    requires Inv(l, p) && l.backend.fd >= 0
    requires match saved case None => timer == p.timer case Some(t) => timer.Some? && p.timer == Some(t)
    ensures Inv(l.(kernel := l.kernel.(timer := timer), backend := l.backend.(savedTimer := saved)), p)
  {
  }

  lemma ApplyRs485Keeps(l: Linux, p: Kernel, c: RS485Config, policy: UnsupportedPolicy, f: Rs485Faults)
    requires Inv(l, p) && l.backend.fd >= 0
    ensures Inv(ApplyRs485(l, c, policy, f).state, p)
  {
    var merged := WithFlagsFrom(ReadRs485(l), c);
    assert merged.Some? ==> ToBytes(l.order, merged.value)[14..] == Zeros(PADDING);
  }

  lemma PosixOpenKeeps(l: Linux, p: Kernel, config: SerialConfig, f: OpenFaults)
    requires Inv(l, p)
    ensures Inv(PosixOpen(l, config, f).state, p)
  {
  }

  /** What is written is read back, and the padding is zero. */
  lemma WriteReadsBack(order: ByteOrder, s: RS485State)
    ensures FromBytes(order, ToBytes(order, s)) == Some(s)
    ensures ToBytes(order, s)[14..] == Zeros(PADDING)
  {
    Rs485RoundTrip(order, s, []);
    FieldsOf(order, s);
    assert ToBytes(order, s) + [] == ToBytes(order, s);
  }

  /** Putting the saved structure back makes the kernel read as it did before. */
  lemma RestoreRs485Keeps(l: Linux, p: Kernel, saved: RS485State)
    requires Inv(l, p) && FromBytes(l.order, p.rs485) == Some(saved)
    ensures Inv(l.(kernel := WriteRs485(l.order, l.kernel, saved),
                   backend := l.backend.(savedRs485 := None)), p)
  {
    WriteReadsBack(l.order, saved);
  }

  predicate RestoresOk(f: CloseFaults) {
    !f.rereadFlags && !f.writeFlags && !f.writeTimer && !f.writeRs485
  }

  lemma CloseKeeps(l: Linux, p: Kernel, f: CloseFaults)
    requires Inv(l, p) && RestoresOk(f)
    ensures Inv(CloseStep(l, f), p) && CloseStep(l, f).backend.fd < 0
  {
    CloseKeepsFlags(l, p, f);
    CloseKeepsRs485(l, p, f);
  }

  lemma CloseKeepsFlags(l: Linux, p: Kernel, f: CloseFaults)
    requires Inv(l, p) && RestoresOk(f)
    ensures FlagsInv(CloseStep(l, f), p) && TimerInv(CloseStep(l, f), p)
  {
  }

  lemma CloseKeepsRs485(l: Linux, p: Kernel, f: CloseFaults)
    requires Inv(l, p) && RestoresOk(f)
    ensures Rs485Inv(CloseStep(l, f), p)
  {
    if l.backend.savedRs485.Some? {
      WriteReadsBack(l.order, l.backend.savedRs485.value);
    }
  }

  lemma LowLatencyKeeps(l: Linux, p: Kernel, policy: UnsupportedPolicy, f: OpenFaults)
    requires Inv(l, p) && l.backend.fd >= 0
    requires l.backend.savedFlags.None? && l.backend.savedTimer.None?
    ensures Inv(EnableLowLatency(l, policy, f).state, p)
    ensures EnableLowLatency(l, policy, f).state.backend.fd == l.backend.fd
  {
    EnableFlagsKeeps(l, p, policy, f);
    if EnableFlags(l, policy, f).outcome == Normal {
      EnableTimerKeeps(EnableFlags(l, policy, f).state, p, policy, f);
    }
  }

  lemma TuneKeeps(l: Linux, p: Kernel, config: SerialConfig, f: OpenFaults)
    requires Inv(l, p) && l.backend.fd >= 0
    requires l.backend.savedFlags.None? && l.backend.savedTimer.None?
    ensures Inv(Tune(l, config, f).state, p) && Tune(l, config, f).state.backend.fd >= 0
  {
    if config.lowLatency {
      LowLatencyKeeps(l, p, config.policy, f);
    }
    ThenRs485Keeps(if config.lowLatency then EnableLowLatency(l, config.policy, f) else Stepped(l, Normal), p, config, f);
  }

  lemma ThenRs485Keeps(low: Stepped, p: Kernel, config: SerialConfig, f: OpenFaults)
    requires Inv(low.state, p) && low.state.backend.fd >= 0
    ensures Inv(ThenRs485(low, config, f).state, p) && ThenRs485(low, config, f).state.backend.fd >= 0
  {
    if low.outcome == Normal && config.rs485.Some? {
      ApplyRs485Keeps(low.state, p, config.rs485.value, config.policy, f.rs485);
    }
  }

  lemma OpenKeeps(l: Linux, p: Kernel, config: SerialConfig, f: OpenFaults, cf: CloseFaults)
    requires Inv(l, p) && RestoresOk(cf)
    ensures Inv(OpenStep(l, config, f, cf).state, p)
  {
    PosixOpenKeeps(l, p, config, f);
    var s := PosixOpen(l, config, f);
    if s.outcome == Normal {
      TuneKeeps(s.state, p, config, f);
      var t := Tune(s.state, config, f);
      if t.outcome != Normal {
        CloseKeeps(t.state, p, cf);
      }
    }
  }

  lemma TuneStaysOpen(l: Linux, config: SerialConfig, f: OpenFaults)
    requires l.kernel.Valid()
    ensures Tune(l, config, f).state.backend.fd == l.backend.fd
    ensures Tune(l, config, f).outcome != RuntimeError
  {
  }

  /** An open is refused exactly when already open, and otherwise ends with a descriptor exactly when it succeeds. */
  lemma OpenOutcome(l: Linux, config: SerialConfig, f: OpenFaults, cf: CloseFaults)
    requires l.kernel.Valid()
    ensures var s := OpenStep(l, config, f, cf);
            && (s.outcome == RuntimeError <==> l.backend.fd >= 0)
            && (l.backend.fd < 0 ==> (s.outcome == Normal <==> s.state.backend.fd >= 0))
  {
    var s := PosixOpen(l, config, f);
    if s.outcome == Normal {
      TuneStaysOpen(s.state, config, f);
    }
  }

  lemma ConfigureKeeps(l: Linux, p: Kernel, config: SerialConfig, f: ConfigureFaults)
    requires Inv(l, p) && !f.restoreRs485
    ensures Inv(ConfigureStep(l, config, f).state, p)
  {
    if l.backend.fd >= 0 && !f.apply {
      var l1 := l.(backend := l.backend.(config := Some(config)));
      assert Inv(l1, p);
      if config.rs485.Some? {
        ApplyRs485Keeps(l1, p, config.rs485.value, config.policy, f.rs485);
      } else if l.backend.savedRs485.Some? {
        RestoreRs485Keeps(l1, p, l.backend.savedRs485.value);
      }
    }
  }

  // ---------------------------------------------------------------------
  // Whole runs
  // ---------------------------------------------------------------------

  datatype Op =
    | Open(config: SerialConfig, faults: OpenFaults, onFailure: CloseFaults)
    | Configure(newConfig: SerialConfig, configureFaults: ConfigureFaults)
    | Close(closeFaults: CloseFaults)

  function Do(l: Linux, op: Op): (r: Linux)
    requires l.kernel.Valid()
    ensures r.kernel.Valid() && r.order == l.order
  {
    match op
    case Open(config, f, cf) => OpenStep(l, config, f, cf).state
    case Configure(config, f) => ConfigureStep(l, config, f).state
    case Close(f) => CloseStep(l, f)
  }

  function Run(l: Linux, ops: seq<Op>): (r: Linux)
    requires l.kernel.Valid()
    ensures r.kernel.Valid() && r.order == l.order
    decreases |ops|
  {
    if ops == [] then l else Do(Run(l, ops[..|ops| - 1]), ops[|ops| - 1])
  }

  /** Of all failures only a restore write's is excluded. */
  predicate RestoreWritesSucceed(op: Op) {
    match op
    case Open(_, _, cf) => RestoresOk(cf)
    case Configure(_, f) => !f.restoreRs485
    case Close(f) => RestoresOk(f)
  }

  /** A backend that has not been opened: nothing saved, no descriptor. */
  predicate Fresh(l: Linux) {
    && l.kernel.Valid() && l.backend.fd < 0
    && l.backend.savedFlags.None? && l.backend.savedTimer.None? && l.backend.savedRs485.None?
  }

  lemma DoKeeps(l: Linux, p: Kernel, op: Op)
    requires Inv(l, p) && RestoreWritesSucceed(op)
    ensures Inv(Do(l, op), p)
  {
    match op
    case Open(config, f, cf) => OpenKeeps(l, p, config, f, cf);
    case Configure(config, f) => ConfigureKeeps(l, p, config, f);
    case Close(f) => CloseKeeps(l, p, f);
  }

  /** Whatever the values to be restored are, every run of succeeding restore writes keeps them. */
  lemma {:induction false} RunKeeps(l: Linux, p: Kernel, ops: seq<Op>)
    requires Inv(l, p)
    requires forall i | 0 <= i < |ops| :: RestoreWritesSucceed(ops[i])
    ensures Inv(Run(l, ops), p)
    decreases |ops|
  {
    if ops == [] {
    } else {
      var front := ops[..|ops| - 1];
      RunKeeps(l, p, front);
      DoKeeps(Run(l, front), p, ops[|ops| - 1]);
    }
  }

  /**
   Whenever the backend is closed, after any number of sessions in which calls failed in
   any pattern, the kernel is as it was: the whole serial struct, the timer, the RS-485
   state as it reads, and the process's descriptors; byte for byte when the padding of
   the RS-485 struct was zero, as the kernel reports it.
  */
  lemma RestoredWheneverClosed(l: Linux, ops: seq<Op>)
    requires Fresh(l)
    requires forall i | 0 <= i < |ops| :: RestoreWritesSucceed(ops[i])
    requires Run(l, ops).backend.fd < 0
    ensures var k := Run(l, ops).kernel;
            && k.serial == l.kernel.serial
            && k.timer == l.kernel.timer
            && k.fds == l.kernel.fds
            && FromBytes(l.order, k.rs485) == FromBytes(l.order, l.kernel.rs485)
            && (l.kernel.rs485[14..] == Zeros(PADDING) ==> k.rs485 == l.kernel.rs485)
  {
    RunKeeps(l, l.kernel, ops);
    var k := Run(l, ops).kernel;
    assert k.serial == l.kernel.serial;
    if l.kernel.rs485[14..] == Zeros(PADDING) {
      ReadAlikeAreAlike(l.order, k.rs485, l.kernel.rs485);
    }
  }

  /** Two structures with zero padding that read the same are the same bytes. */
  lemma ReadAlikeAreAlike(order: ByteOrder, a: seq<Byte>, b: seq<Byte>)
    requires |a| == |b| == RS485_SIZE && FromBytes(order, a) == FromBytes(order, b)
    requires a[14..] == Zeros(PADDING) && b[14..] == Zeros(PADDING)
    ensures a == b
  {
    Rs485BytesRoundTrip(order, a);
    Rs485BytesRoundTrip(order, b);
    assert a[..RS485_SIZE] == a && b[..RS485_SIZE] == b;
    assert a[14..RS485_SIZE] == a[14..] && b[14..RS485_SIZE] == b[14..];
  }

  /** Resource by resource, exactly when one close puts the kernel back. */
  lemma CloseExact(l: Linux, p: Kernel, f: CloseFaults)
    requires Inv(l, p) && l.backend.fd >= 0
    ensures var k := CloseStep(l, f).kernel;
            && (k.serial == p.serial
                <==> l.kernel.serial == p.serial || (!f.rereadFlags && !f.writeFlags))
            && (k.timer == p.timer <==> l.kernel.timer == p.timer || !f.writeTimer)
            && (FromBytes(l.order, k.rs485) == FromBytes(l.order, p.rs485)
                <==> FromBytes(l.order, l.kernel.rs485) == FromBytes(l.order, p.rs485) || !f.writeRs485)
            && k.fds == p.fds
  {
    CloseFlagsExact(l, p, f);
    CloseTimerExact(l, p, f);
    CloseRs485Exact(l, p, f);
    CloseFdsExact(l, p, f);
  }

  lemma CloseFlagsExact(l: Linux, p: Kernel, f: CloseFaults)
    requires l.kernel.Valid() && p.Valid() && FlagsInv(l, p) && l.backend.fd >= 0
    ensures CloseStep(l, f).kernel.serial == p.serial
            <==> l.kernel.serial == p.serial || (!f.rereadFlags && !f.writeFlags)
  {
    var k := CloseStep(l, f).kernel;
    if l.backend.savedFlags.None? {
      assert l.kernel.serial == p.serial;
    } else if !f.rereadFlags && !f.writeFlags {
      assert k.serial == p.serial;
    }
  }

  lemma CloseTimerExact(l: Linux, p: Kernel, f: CloseFaults)
    requires l.kernel.Valid() && TimerInv(l, p) && l.backend.fd >= 0
    ensures CloseStep(l, f).kernel.timer == p.timer <==> l.kernel.timer == p.timer || !f.writeTimer
  {
  }

  lemma CloseRs485Exact(l: Linux, p: Kernel, f: CloseFaults)
    requires l.kernel.Valid() && p.Valid() && Rs485Inv(l, p) && l.backend.fd >= 0
    ensures FromBytes(l.order, CloseStep(l, f).kernel.rs485) == FromBytes(l.order, p.rs485)
            <==> FromBytes(l.order, l.kernel.rs485) == FromBytes(l.order, p.rs485) || !f.writeRs485
  {
    if l.backend.savedRs485.Some? && !f.writeRs485 {
      WriteReadsBack(l.order, l.backend.savedRs485.value);
    }
  }

  lemma CloseFdsExact(l: Linux, p: Kernel, f: CloseFaults)
    requires l.kernel.Valid() && FdInv(l, p) && l.backend.fd >= 0
    ensures CloseStep(l, f).kernel.fds == p.fds
  {
  }

  /** Exactly when dropping RS-485 at run time is restored: the write went through, or changed nothing. */
  lemma DroppingRs485(l: Linux, p: Kernel, config: SerialConfig, f: ConfigureFaults)
    requires Inv(l, p) && l.backend.fd >= 0 && l.backend.savedRs485.Some?
    requires config.rs485.None? && !f.apply
    ensures var r := ConfigureStep(l, config, f).state;
            && r.backend.savedRs485.None?
            && (FromBytes(l.order, r.kernel.rs485) == FromBytes(l.order, p.rs485)
                <==> !f.restoreRs485 || FromBytes(l.order, l.kernel.rs485) == FromBytes(l.order, p.rs485))
  {
    if !f.restoreRs485 {
      ConfigureKeeps(l, p, config, f);
    }
  }

  /** What the kernel is to be restored to once a dropping write has failed: RS-485 as it was then. */
  function Lost(p: Kernel, l: Linux): Kernel {
    Kernel(p.serial, p.timer, l.kernel.rs485, p.fds)
  }

  lemma DroppingLoses(l: Linux, p: Kernel, config: SerialConfig, f: ConfigureFaults)
    requires Inv(l, p) && l.backend.fd >= 0 && l.backend.savedRs485.Some?
    requires config.rs485.None? && !f.apply && f.restoreRs485
    ensures Inv(ConfigureStep(l, config, f).state, Lost(p, l))
  {
  }

  /**
   After such a loss nothing brings the state back: whatever sessions follow, whenever the
   backend is closed RS-485 reads as it did when the write failed, and everything else is
   as it was before the first open.
  */
  lemma LossIsFinal(l: Linux, p: Kernel, config: SerialConfig, f: ConfigureFaults, ops: seq<Op>)
    requires Inv(l, p) && l.backend.fd >= 0 && l.backend.savedRs485.Some?
    requires config.rs485.None? && !f.apply && f.restoreRs485
    requires forall i | 0 <= i < |ops| :: RestoreWritesSucceed(ops[i])
    requires Run(ConfigureStep(l, config, f).state, ops).backend.fd < 0
    ensures var k := Run(ConfigureStep(l, config, f).state, ops).kernel;
            && FromBytes(l.order, k.rs485) == FromBytes(l.order, l.kernel.rs485)
            && k.serial == p.serial && k.timer == p.timer && k.fds == p.fds
  {
    DroppingLoses(l, p, config, f);
    RunKeeps(ConfigureStep(l, config, f).state, Lost(p, l), ops);
    ClosedIsPristine(Run(ConfigureStep(l, config, f).state, ops), Lost(p, l));
  }

  lemma ClosedIsPristine(l: Linux, p: Kernel)
    requires Inv(l, p) && l.backend.fd < 0
    ensures FromBytes(l.order, l.kernel.rs485) == FromBytes(l.order, p.rs485)
    ensures l.kernel.serial == p.serial && l.kernel.timer == p.timer && l.kernel.fds == p.fds
  {
  }

  // ---------------------------------------------------------------------
  // A configure that raises
  // ---------------------------------------------------------------------

  /** The descriptor is open, termios went through, and then the RS-485 step raises. */
  predicate RaisesLate(l: Linux, config: SerialConfig, f: ConfigureFaults) {
    l.backend.fd >= 0 && !f.apply && config.rs485.Some? && Rs485Raises(config.rs485.value, config.policy, f.rs485)
  }

  /**
   A configure that raises changes nothing, except exactly when it raises late: then the new
   config is stored, its termios being in force, and only RS-485 is as the kernel had it.
  */
  lemma RaisingConfigure(l: Linux, config: SerialConfig, f: ConfigureFaults)
    requires l.kernel.Valid()
    ensures var s := ConfigureStep(l, config, f);
            && (RaisesLate(l, config, f) ==>
                  s.outcome != Normal && s.state.backend.config == Some(config) && s.state.kernel == l.kernel)
            && (s.outcome != Normal && !RaisesLate(l, config, f) ==> s.state == l)
  {
  }

  /**
   A configure succeeds exactly when the descriptor is open, termios went through and the
   RS-485 step did not raise. RS-485 is then merged if it was asked for and its calls went
   through, put back if it was dropped with something saved and that write went through,
   and otherwise as it was; flags, timer and descriptors are never touched.
  */
  lemma ConfigureEffect(l: Linux, config: SerialConfig, f: ConfigureFaults)
    requires l.kernel.Valid()
    ensures var s := ConfigureStep(l, config, f);
            var k := s.state.kernel;
            && (s.outcome == Normal <==>
                  l.backend.fd >= 0 && !f.apply
                  && (config.rs485.Some? ==> !Rs485Raises(config.rs485.value, config.policy, f.rs485)))
            && (s.outcome == Normal ==> s.state.backend.config == Some(config))
            && k.serial == l.kernel.serial && k.timer == l.kernel.timer && k.fds == l.kernel.fds
            && s.state.backend.fd == l.backend.fd
            && (l.backend.fd >= 0 && !f.apply ==>
                  FromBytes(l.order, k.rs485)
                  == (if config.rs485.Some? && Rs485Goes(config.rs485.value, f.rs485)
                      then WithFlagsFrom(FromBytes(l.order, l.kernel.rs485).value, config.rs485.value)
                      else if config.rs485.None? && l.backend.savedRs485.Some? && !f.restoreRs485
                      then l.backend.savedRs485
                      else FromBytes(l.order, l.kernel.rs485)))
  {
    if config.rs485.Some? {
      Rs485Effect(l.(backend := l.backend.(config := Some(config))), config.rs485.value, config.policy, f.rs485);
    } else if l.backend.savedRs485.Some? {
      WriteReadsBack(l.order, l.backend.savedRs485.value);
    }
  }

  // ---------------------------------------------------------------------
  // What an open does
  // ---------------------------------------------------------------------

  predicate NoFaults(f: OpenFaults) {
    && !f.osOpen && !f.lock && !f.apply && !f.readFlags && !f.rereadFlags && !f.writeFlags
    && f.timer == TimerFine && !f.writeTimer && !f.rs485.read && !f.rs485.write
  }

  /** The flags can be read, and have the bit or can be written, which reads them once more. */
  predicate FlagsGo(k: Kernel, f: OpenFaults)
    requires k.Valid()
  {
    !f.readFlags && (k.serial[FLAGS_INDEX] & 0x2000 != 0 || (!f.rereadFlags && !f.writeFlags))
  }

  /** The timer can be read, and is at its target or can be written. */
  predicate TimerGoes(k: Kernel, f: OpenFaults) {
    k.timer.Some? && f.timer == TimerFine && (k.timer.value == 1 || !f.writeTimer)
  }

  /** A call on the timer fails with an OSError; the policy decides about it. */
  predicate TimerRefused(k: Kernel, f: OpenFaults) {
    && k.timer.Some?
    && (f.timer == TimerUnreadable || (f.timer == TimerFine && k.timer.value != 1 && f.writeTimer))
  }

  /** The timer's file holds something that is not a number: a ValueError, which no policy sees. */
  predicate TimerGarbled(k: Kernel, f: OpenFaults) {
    k.timer.Some? && f.timer == TimerGarbage
  }

  predicate Rs485Goes(c: RS485Config, f: Rs485Faults) {
    !f.read && !f.write && c.FiniteDelays()
  }

  /** The kernel `k'` is `k` with exactly those requested features on whose calls went through. */
  predicate TunedBy(order: ByteOrder, k: Kernel, k': Kernel, config: SerialConfig, f: OpenFaults)
    requires k.Valid() && k'.Valid()
  {
    && k'.serial == (if config.lowLatency && FlagsGo(k, f)
                     then k.serial[FLAGS_INDEX := k.serial[FLAGS_INDEX] | 0x2000] else k.serial)
    && k'.timer == (if config.lowLatency && TimerGoes(k, f) then Some(1) else k.timer)
    && FromBytes(order, k'.rs485)
       == (if config.rs485.Some? && Rs485Goes(config.rs485.value, f.rs485)
           then WithFlagsFrom(FromBytes(order, k.rs485).value, config.rs485.value)
           else FromBytes(order, k.rs485))
  }

  /** The kernel `k'` is `k` with all requested features on and nothing else changed. */
  predicate Tuned(order: ByteOrder, k: Kernel, k': Kernel, config: SerialConfig)
    requires k.Valid() && k'.Valid()
  {
    && k'.serial == (if config.lowLatency then k.serial[FLAGS_INDEX := k.serial[FLAGS_INDEX] | 0x2000]
                     else k.serial)
    && k'.timer == (if config.lowLatency && k.timer.Some? then Some(1) else k.timer)
    && FromBytes(order, k'.rs485)
       == (if config.rs485.Some? then WithFlagsFrom(FromBytes(order, k.rs485).value, config.rs485.value)
           else FromBytes(order, k.rs485))
  }

  /** Under this policy these failures do not end an open. */
  predicate Tolerated(k: Kernel, config: SerialConfig, f: OpenFaults)
    requires k.Valid()
  {
    && (config.lowLatency ==> !TimerGarbled(k, f))
    && (config.lowLatency && config.policy == Raise ==> FlagsGo(k, f) && !TimerRefused(k, f))
    && (config.rs485.Some? ==> !Rs485Raises(config.rs485.value, config.policy, f.rs485))
  }

  /** Skipping the write when the bit is set already comes to the same as writing it. */
  lemma SkippedWrite(k: Kernel, flags: Word)
    requires k.Valid() && flags == k.serial[FLAGS_INDEX] && flags & ASYNC_LOW_LATENCY != 0
    ensures WriteFlags(k, flags | ASYNC_LOW_LATENCY) == k
  {
    AlreadySet(flags);
    assert k.serial[FLAGS_INDEX := flags] == k.serial;
  }

  lemma FlagsGoOrNot(k: Kernel, f: OpenFaults)
    requires k.Valid()
    ensures LowLatencyOk(k, f) == FlagsGo(k, f)
  {
  }

  /** The kernel afterwards, whether or not a write was needed. */
  lemma FlagsWritten(k: Kernel, f: OpenFaults, flags: Word)
    requires k.Valid() && flags == k.serial[FLAGS_INDEX] && LowLatencyOk(k, f)
    ensures LowLatencyKernel(k, f) == WriteFlags(k, flags | ASYNC_LOW_LATENCY)
  {
    if flags & ASYNC_LOW_LATENCY != 0 {
      SkippedWrite(k, flags);
    }
  }

  lemma FlagsEffect(l: Linux, policy: UnsupportedPolicy, f: OpenFaults, flags: Word)
    requires l.kernel.Valid() && flags == l.kernel.serial[FLAGS_INDEX]
    ensures var s := EnableFlags(l, policy, f);
            && s.outcome == (if policy == Raise && !FlagsGo(l.kernel, f) then Unsupported else Normal)
            && s.state.kernel == (if FlagsGo(l.kernel, f) then WriteFlags(l.kernel, flags | ASYNC_LOW_LATENCY)
                                  else l.kernel)
            && s.state.backend.fd == l.backend.fd && s.state.backend.config == l.backend.config
  {
    FlagsGoOrNot(l.kernel, f);
    if FlagsGo(l.kernel, f) {
      FlagsWritten(l.kernel, f, flags);
    }
  }

  lemma TimerEffect(l: Linux, policy: UnsupportedPolicy, f: OpenFaults)
    requires l.kernel.Valid()
    ensures var s := EnableTimer(l, policy, f);
            && s.outcome == (if TimerGarbled(l.kernel, f) then ValueError
                             else if policy == Raise && TimerRefused(l.kernel, f) then Unsupported else Normal)
            && s.state.kernel == l.kernel.(timer := if TimerGoes(l.kernel, f) then Some(LATENCY_TARGET_MS)
                                                    else l.kernel.timer)
            && s.state.backend.fd == l.backend.fd
  {
  }

  /** Low latency as a whole, for every pattern of failures. */
  lemma LowLatencyEffect(l: Linux, policy: UnsupportedPolicy, f: OpenFaults)
    requires l.kernel.Valid()
    ensures var s := EnableLowLatency(l, policy, f);
            var k := l.kernel;
            && s.outcome == (if policy == Raise && !FlagsGo(k, f) then Unsupported
                             else if TimerGarbled(k, f) then ValueError
                             else if policy == Raise && TimerRefused(k, f) then Unsupported else Normal)
            && (s.outcome == Normal ==> s.state.kernel == Kernel(
                  if FlagsGo(k, f) then k.serial[FLAGS_INDEX := k.serial[FLAGS_INDEX] | ASYNC_LOW_LATENCY]
                  else k.serial,
                  if TimerGoes(k, f) then Some(LATENCY_TARGET_MS) else k.timer,
                  k.rs485, k.fds))
            && s.state.backend.fd == l.backend.fd && s.state.kernel.fds == k.fds
            && s.state.backend.config == l.backend.config
  {
    FlagsEffect(l, policy, f, l.kernel.serial[FLAGS_INDEX]);
    var s := EnableFlags(l, policy, f);
    TimerEffect(s.state, policy, f);
    SameTimer(s.state.kernel, l.kernel, f);
    assert s.outcome == Normal ==> EnableLowLatency(l, policy, f) == EnableTimer(s.state, policy, f);
  }

  lemma Rs485Effect(l: Linux, c: RS485Config, policy: UnsupportedPolicy, f: Rs485Faults)
    requires l.kernel.Valid()
    ensures var s := ApplyRs485(l, c, policy, f);
            && (s.outcome != Normal <==> Rs485Raises(c, policy, f))
            && (s.outcome == Unsupported ==> policy == Raise)
            && s.outcome in {Normal, Unsupported, BadDelay}
            && s.state.kernel.serial == l.kernel.serial && s.state.kernel.timer == l.kernel.timer
            && s.state.kernel.fds == l.kernel.fds && s.state.backend.fd == l.backend.fd
            && s.state.backend.config == l.backend.config
            && FromBytes(l.order, s.state.kernel.rs485)
               == (if Rs485Goes(c, f) then WithFlagsFrom(FromBytes(l.order, l.kernel.rs485).value, c)
                   else FromBytes(l.order, l.kernel.rs485))
            && (Rs485Goes(c, f) ==> s.state.backend.savedRs485.Some?)
  {
    var merged := WithFlagsFrom(ReadRs485(l), c);
    if merged.Some? {
      WriteReadsBack(l.order, merged.value);
    }
  }

  lemma TuneEffect(l: Linux, config: SerialConfig, f: OpenFaults)
    requires l.kernel.Valid()
    ensures var s := Tune(l, config, f);
            && (s.outcome == Normal <==> Tolerated(l.kernel, config, f))
            && (s.outcome == Normal ==> TunedBy(l.order, l.kernel, s.state.kernel, config, f))
            && (s.outcome == Unsupported ==> config.policy == Raise)
            && s.outcome in {Normal, Unsupported, ValueError, BadDelay}
            && s.state.backend.fd == l.backend.fd && s.state.kernel.fds == l.kernel.fds
            && s.state.backend.config == l.backend.config
  {
    LowLatencyEffect(l, config.policy, f);
    var low := if config.lowLatency then EnableLowLatency(l, config.policy, f) else Stepped(l, Normal);
    if config.rs485.Some? {
      Rs485Effect(low.state, config.rs485.value, config.policy, f.rs485);
    }
  }

  /** The descriptor is granted, locked if that was asked for, and takes the termios. */
  predicate DescriptorReady(k: Kernel, config: SerialConfig, f: OpenFaults) {
    !f.osOpen && f.newFd !in k.fds && !(config.exclusive && f.lock) && !f.apply
  }

  /**
   For every pattern of failures: an open of a closed backend succeeds exactly when the
   descriptor is ready and the failures are tolerated. Without a descriptor it ends in an
   OSError and has changed nothing. A successful one turned on exactly those requested
   features whose calls went through, recorded the config, and changed nothing else.
  */
  lemma OpenEffect(l: Linux, config: SerialConfig, f: OpenFaults, cf: CloseFaults)
    requires Fresh(l)
    ensures var s := OpenStep(l, config, f, cf);
            && (s.outcome == Normal <==> DescriptorReady(l.kernel, config, f) && Tolerated(l.kernel, config, f))
            && (!DescriptorReady(l.kernel, config, f) ==> s.outcome == OsError && s.state == l)
            && (s.outcome == Normal ==>
                  && s.state.backend.fd == f.newFd && s.state.kernel.fds == l.kernel.fds + {f.newFd}
                  && s.state.backend.config == Some(config)
                  && TunedBy(l.order, l.kernel, s.state.kernel, config, f))
  {
    var base := PosixOpen(l, config, f);
    if base.outcome == Normal {
      TuneEffect(base.state, config, f);
      SameButDescriptors(l.order, base.state.kernel, l.kernel, Tune(base.state, config, f).state.kernel, config, f);
    }
  }

  /** Only the device's own state matters for what is turned on, not which descriptors are open. */
  lemma SameButDescriptors(order: ByteOrder, a: Kernel, b: Kernel, k: Kernel, config: SerialConfig, f: OpenFaults)
    requires a.Valid() && b.Valid() && k.Valid()
    requires a.serial == b.serial && a.timer == b.timer && a.rs485 == b.rs485
    ensures Tolerated(a, config, f) == Tolerated(b, config, f)
    ensures TunedBy(order, a, k, config, f) == TunedBy(order, b, k, config, f)
  {
    SameTolerance(a, b, config, f);
    SameTuning(order, a, b, k, config, f);
  }

  lemma SameTolerance(a: Kernel, b: Kernel, config: SerialConfig, f: OpenFaults)
    requires a.Valid() && b.Valid() && a.serial == b.serial && a.timer == b.timer
    ensures Tolerated(a, config, f) == Tolerated(b, config, f)
  {
    SameFlags(a, b, f);
    SameTimer(a, b, f);
  }

  lemma SameTuning(order: ByteOrder, a: Kernel, b: Kernel, k: Kernel, config: SerialConfig, f: OpenFaults)
    requires a.Valid() && b.Valid() && k.Valid()
    requires a.serial == b.serial && a.timer == b.timer && a.rs485 == b.rs485
    ensures TunedBy(order, a, k, config, f) == TunedBy(order, b, k, config, f)
  {
    SameFlags(a, b, f);
    SameTimer(a, b, f);
  }

  lemma SameFlags(a: Kernel, b: Kernel, f: OpenFaults)
    requires a.Valid() && b.Valid() && a.serial == b.serial
    ensures FlagsGo(a, f) == FlagsGo(b, f)
  {
  }

  lemma SameTimer(a: Kernel, b: Kernel, f: OpenFaults)
    requires a.timer == b.timer
    ensures TimerGoes(a, f) == TimerGoes(b, f) && TimerRefused(a, f) == TimerRefused(b, f)
    ensures TimerGarbled(a, f) == TimerGarbled(b, f)
  {
  }

  /** Under RAISE a successful open has turned on all that was requested, unless an FTDI timer could not be seen. */
  lemma RaiseMeansTuned(l: Linux, config: SerialConfig, f: OpenFaults, cf: CloseFaults)
    requires Fresh(l) && config.policy == Raise
    requires OpenStep(l, config, f, cf).outcome == Normal
    ensures Tuned(l.order, l.kernel, OpenStep(l, config, f, cf).state.kernel, config)
            <==> (config.lowLatency && f.timer == TimerHidden ==>
                    l.kernel.timer.None? || l.kernel.timer.value == LATENCY_TARGET_MS)
  {
    OpenEffect(l, config, f, cf);
  }

  lemma OpenSaves(l: Linux, config: SerialConfig, f: OpenFaults, cf: CloseFaults)
    requires Fresh(l) && OpenStep(l, config, f, cf).outcome == Normal
    requires config.rs485.Some? && Rs485Goes(config.rs485.value, f.rs485)
    ensures OpenStep(l, config, f, cf).state.backend.savedRs485.Some?
  {
    var base := PosixOpen(l, config, f).state;
    var low := if config.lowLatency then EnableLowLatency(base, config.policy, f) else Stepped(base, Normal);
    Rs485Effect(low.state, config.rs485.value, config.policy, f.rs485);
  }

  /**
   A refused feature ends an open only under the RAISE policy; under the others an open
   fails, once it has its descriptor, exactly when the FTDI timer's file is not a number
   or an RS-485 delay to be written is not finite. An open that fails in any way leaves
   no descriptor.
  */
  lemma PolicyDecides(l: Linux, config: SerialConfig, f: OpenFaults, cf: CloseFaults)
    requires Fresh(l)
    ensures var s := OpenStep(l, config, f, cf);
            && (s.outcome == Unsupported ==> config.policy == Raise)
            && (config.policy != Raise ==>
                  (s.outcome == Normal <==>
                     DescriptorReady(l.kernel, config, f)
                     && !(config.lowLatency && l.kernel.timer.Some? && f.timer == TimerGarbage)
                     && !(config.rs485.Some? && !f.rs485.read && !config.rs485.value.FiniteDelays())))
            && (s.outcome != Normal ==> s.state.backend.fd < 0 && s.state.kernel.fds == l.kernel.fds)
  {
    var s := PosixOpen(l, config, f);
    if s.outcome == Normal {
      TuneEffect(s.state, config, f);
      assert l.kernel.fds + {f.newFd} - {f.newFd} == l.kernel.fds;
    }
  }

  /** So does an infinite delay, which the configuration accepts. */
  lemma InfiniteDelayDefeatsIgnore(l: Linux, config: SerialConfig, f: OpenFaults, cf: CloseFaults)
    requires Fresh(l) && DescriptorReady(l.kernel, config, f) && !config.lowLatency
    requires config.policy == Ignore && config.rs485.Some? && !f.rs485.read
    requires config.rs485.value.delayBeforeSend == Infinite
    ensures OpenStep(l, config, f, cf).outcome == BadDelay
  {
  }

  /** Such a file defeats even the policy that ignores every refusal. */
  lemma GarbledTimerDefeatsIgnore(l: Linux, config: SerialConfig, f: OpenFaults, cf: CloseFaults)
    requires Fresh(l) && DescriptorReady(l.kernel, config, f)
    requires config.policy == Ignore && config.lowLatency && l.kernel.timer.Some? && f.timer == TimerGarbage
    ensures OpenStep(l, config, f, cf).outcome == ValueError
  {
    LowLatencyEffect(PosixOpen(l, config, f).state, config.policy, f);
  }

  /** A port whose RS-485 was off keeps it on for good when switching it on, dropping it with a failing write, and closing. */
  lemma LossHappens(l: Linux, on: SerialConfig, off: SerialConfig, f: OpenFaults, cf: CloseFaults, drop: ConfigureFaults)
    requires Fresh(l) && f.newFd !in l.kernel.fds && NoFaults(f) && RestoresOk(cf)
    requires on.rs485.Some? && on.rs485.value.enabled && on.rs485.value.FiniteDelays() && off.rs485.None? && !drop.apply && drop.restoreRs485
    requires FromBytes(l.order, l.kernel.rs485).value.flags & ENABLED == 0
    ensures var r := Run(l, [Open(on, f, cf), Configure(off, drop), Close(cf)]);
            && r.backend.fd < 0
            && FromBytes(l.order, r.kernel.rs485).value.flags & ENABLED != 0
  {
    var session := OpenStep(l, on, f, cf).state;
    OpenTurnsOn(l, on, f, cf);
    OpenKeeps(l, l.kernel, on, f, cf);
    OpenSaves(l, on, f, cf);
    DropAndClose(session, l.kernel, off, drop, cf);
    OneSession(l, on, off, f, cf, drop);
  }

  lemma DropAndClose(l: Linux, p: Kernel, off: SerialConfig, drop: ConfigureFaults, cf: CloseFaults)
    requires Inv(l, p) && l.backend.fd >= 0 && l.backend.savedRs485.Some? && RestoresOk(cf)
    requires off.rs485.None? && !drop.apply && drop.restoreRs485
    ensures var r := CloseStep(ConfigureStep(l, off, drop).state, cf);
            r.backend.fd < 0 && FromBytes(l.order, r.kernel.rs485) == FromBytes(l.order, l.kernel.rs485)
  {
    DroppingLoses(l, p, off, drop);
    CloseKeeps(ConfigureStep(l, off, drop).state, Lost(p, l), cf);
    ClosedIsPristine(CloseStep(ConfigureStep(l, off, drop).state, cf), Lost(p, l));
  }

  lemma OneSession(l: Linux, on: SerialConfig, off: SerialConfig, f: OpenFaults, cf: CloseFaults, drop: ConfigureFaults)
    requires l.kernel.Valid()
    ensures Run(l, [Open(on, f, cf), Configure(off, drop), Close(cf)])
            == CloseStep(ConfigureStep(OpenStep(l, on, f, cf).state, off, drop).state, cf)
  {
    ThreeOps(l, Open(on, f, cf), Configure(off, drop), Close(cf));
  }

  lemma ThreeOps(l: Linux, a: Op, b: Op, c: Op)
    requires l.kernel.Valid()
    ensures Run(l, [a, b, c]) == Do(Do(Do(l, a), b), c)
  {
    assert [a, b, c][..2] == [a, b] && [a, b][..1] == [a] && [a][..0] == [];
    assert Run(l, [a]) == Do(l, a);
    assert Run(l, [a, b]) == Do(Do(l, a), b);
  }

  lemma OpenTurnsOn(l: Linux, on: SerialConfig, f: OpenFaults, cf: CloseFaults)
    requires Fresh(l) && f.newFd !in l.kernel.fds && NoFaults(f)
    requires on.rs485.Some? && on.rs485.value.enabled && on.rs485.value.FiniteDelays()
    ensures var s := OpenStep(l, on, f, cf);
            && s.outcome == Normal && s.state.backend.fd >= 0
            && FromBytes(l.order, s.state.kernel.rs485).value.flags & ENABLED != 0
  {
    OpenEffect(l, on, f, cf);
    MergeKeepsForeign(FromBytes(l.order, l.kernel.rs485).value, on.rs485.value);
  }
}
