/**
 LinuxBackend as the object it is: fields that remember what was found, and system
 calls that change a device shared with every other process.

 Each method is proved to move the fields and the device exactly as the functions of
 `LinuxState` say, which is what the claims of `LinuxRestore` are about.
*/
module LinuxBackendObject {
  import opened Types
  import opened KernelStructs
  import opened LinuxState

  /** The device as the kernel keeps it. Every call takes whether it fails; a failing call changes nothing. */
  class Device {
    const order: ByteOrder
    var serial: seq<Word>
    var timer: Option<int>
    var rs485: seq<Byte>
    var fds: set<int>

    constructor (order: ByteOrder, k: Kernel)
      ensures this.order == order && Snapshot() == k
    {
      this.order := order;
      serial, timer, rs485, fds := k.serial, k.timer, k.rs485, k.fds;
    }

    function Snapshot(): Kernel
      reads this
    {
      Kernel(serial, timer, rs485, fds)
    }

    method GetSerial(buf: array<Word>, fails: bool) returns (ok: bool)
      requires buf.Length == BUF_INTS && |serial| == BUF_INTS
      modifies buf
      ensures ok == !fails
      ensures buf[..] == if ok then serial else old(buf[..])
    {
      ok := !fails;
      if ok {
        forall i | 0 <= i < BUF_INTS {
          buf[i] := serial[i];
        }
      }
    }

    method SetSerial(buf: array<Word>, fails: bool) returns (ok: bool)
      requires buf.Length == BUF_INTS
      modifies this`serial
      ensures ok == !fails
      ensures serial == if ok then buf[..] else old(serial)
    {
      ok := !fails;
      if ok {
        serial := buf[..];
      }
    }

    method GetRs485(fails: bool) returns (s: Option<RS485State>)
      requires |rs485| == RS485_SIZE
      ensures s == if fails then None else FromBytes(order, rs485)
    {
      s := if fails then None else FromBytes(order, rs485);
    }

    method SetRs485(s: RS485State, fails: bool) returns (ok: bool)
      modifies this`rs485
      ensures ok == !fails
      ensures rs485 == if ok then ToBytes(order, s) else old(rs485)
    {
      ok := !fails;
      if ok {
        rs485 := ToBytes(order, s);
      }
    }

    method WriteTimer(ms: int, fails: bool) returns (ok: bool)
      modifies this`timer
      ensures ok == !fails
      ensures timer == if ok then Some(ms) else old(timer)
    {
      ok := !fails;
      if ok {
        timer := Some(ms);
      }
    }
  }

  class LinuxBackend {
    var fd: int
    var config: Option<SerialConfig>
    var savedFlags: Option<Word>
    var savedTimer: Option<int>
    var savedRs485: Option<RS485State>
    const device: Device

    constructor (device: Device)
      ensures this.device == device
      ensures Snapshot() == Linux(device.order, device.Snapshot(), Backend(-1, None, None, None, None))
    {
      this.device := device;
      fd, config := -1, None;
      savedFlags, savedTimer, savedRs485 := None, None, None;
    }

    function Snapshot(): Linux
      reads this, device
    {
      Linux(device.order, device.Snapshot(), Backend(fd, config, savedFlags, savedTimer, savedRs485))
    }

    // low_latency ------------------------------------------------------------

    method ReadSerialFlags(fails: bool) returns (flags: Option<Word>)
      requires device.Snapshot().Valid()
      ensures flags == if fails then None else Some(device.serial[FLAGS_INDEX])
    {
      var buf := new Word[BUF_INTS](_ => 0);
      var ok := device.GetSerial(buf, fails);
      assert ok ==> buf[FLAGS_INDEX] == buf[..][FLAGS_INDEX];
      flags := if ok then Some(buf[FLAGS_INDEX]) else None;
    }

    /** Only one slot of the struct changes; every other field goes back as it was read. */
    method WriteSerialFlags(flags: Word, rereadFails: bool, writeFails: bool) returns (ok: bool)
      requires device.Snapshot().Valid()
      modifies device`serial
      ensures ok == (!rereadFails && !writeFails)
      ensures device.Snapshot() == if ok then WriteFlags(old(device.Snapshot()), flags) else old(device.Snapshot())
    {
      var buf := new Word[BUF_INTS](_ => 0);
      ok := device.GetSerial(buf, rereadFails);
      if ok {
        assert buf[..] == device.serial;
        buf[FLAGS_INDEX] := flags;
        assert buf[..] == device.serial[FLAGS_INDEX := flags];
        ok := device.SetSerial(buf, writeFails);
      }
    }

    method SetLowLatency(f: OpenFaults) returns (original: Option<Word>)
      requires device.Snapshot().Valid()
      modifies device`serial
      ensures original == if LowLatencyOk(old(device.Snapshot()), f) then Some(old(device.serial)[FLAGS_INDEX]) else None
      ensures device.Snapshot() == LowLatencyKernel(old(device.Snapshot()), f)
    {
      original := ReadSerialFlags(f.readFlags);
      if original.Some? {
        var flags := original.value;
        if flags & ASYNC_LOW_LATENCY == 0 {
          var ok := WriteSerialFlags(flags | ASYNC_LOW_LATENCY, f.rereadFlags, f.writeFlags);
          if !ok {
            original := None;
          }
        }
      }
    }

    method TuneLatencyTimer(f: OpenFaults) returns (t: TuneResult)
      modifies device`timer
      ensures t == TuneTimer(old(device.Snapshot()), f)
      ensures device.Snapshot() == TunedKernel(old(device.Snapshot()), f)
    {
      if device.timer.None? || f.timer == TimerHidden {
        return Tuned(None);
      }
      if f.timer == TimerUnreadable {
        return TuneFailed(OsError);
      }
      if f.timer == TimerGarbage {
        return TuneFailed(ValueError);
      }
      var original := device.timer.value;
      if original != LATENCY_TARGET_MS {
        var ok := device.WriteTimer(LATENCY_TARGET_MS, f.writeTimer);
        if !ok {
          return TuneFailed(OsError);
        }
      }
      t := Tuned(Some(original));
    }

    method EnableLowLatencyMode(policy: UnsupportedPolicy, f: OpenFaults) returns (outcome: Outcome)
      requires device.Snapshot().Valid()
      modifies this`savedFlags, this`savedTimer, device`serial, device`timer
      ensures Snapshot() == EnableLowLatency(old(Snapshot()), policy, f).state
      ensures outcome == EnableLowLatency(old(Snapshot()), policy, f).outcome
    {
      var original := SetLowLatency(f);
      if original.None? && policy == Raise {
        return Unsupported;
      }
      savedFlags := original;
      var t := TuneLatencyTimer(f);
      if t.TuneFailed? && t.why == ValueError {
        return ValueError;
      }
      if t.TuneFailed? && policy == Raise {
        return Unsupported;
      }
      savedTimer := if t.Tuned? then t.saved else None;
      outcome := Normal;
    }

    // RS-485 -------------------------------------------------------------------

    method ApplyRs485Config(c: RS485Config, policy: UnsupportedPolicy, f: Rs485Faults) returns (outcome: Outcome)
      requires device.Snapshot().Valid()
      modifies this`savedRs485, device`rs485
      ensures Snapshot() == ApplyRs485(old(Snapshot()), c, policy, f).state
      ensures outcome == ApplyRs485(old(Snapshot()), c, policy, f).outcome
    {
      var current := device.GetRs485(f.read);
      if current.None? {
        return Refused(policy);
      }
      if savedRs485.None? {
        savedRs485 := current;
      }
      var merged := WithFlagsFrom(current.value, c);
      if merged.None? {
        return BadDelay;
      }
      var ok := device.SetRs485(merged.value, f.write);
      outcome := if ok then Normal else Refused(policy);
    }

    // Lifecycle ----------------------------------------------------------------

    /** Each saved original is forgotten before its write is tried, so it is written at most once. */
    method Close(f: CloseFaults)
      requires device.Snapshot().Valid()
      modifies this, device
      ensures Snapshot() == CloseStep(old(Snapshot()), f)
    {
      if fd < 0 {
        return;
      }
      if savedFlags.Some? {
        var saved := savedFlags.value;
        savedFlags := None;
        var _ := WriteSerialFlags(saved, f.rereadFlags, f.writeFlags);
      }
      if savedTimer.Some? {
        var saved := savedTimer.value;
        savedTimer := None;
        var _ := device.WriteTimer(saved, f.writeTimer);
      }
      if savedRs485.Some? {
        var saved := savedRs485.value;
        savedRs485 := None;
        var _ := device.SetRs485(saved, f.writeRs485);
      }
      var number := fd;
      fd := -1;
      device.fds := device.fds - {number};
    }

    method OpenDescriptor(config: SerialConfig, f: OpenFaults) returns (outcome: Outcome)
      requires device.Snapshot().Valid()
      modifies this`fd, this`config, device`fds
      ensures Snapshot() == PosixOpen(old(Snapshot()), config, f).state
      ensures outcome == PosixOpen(old(Snapshot()), config, f).outcome
    {
      if fd >= 0 {
        return RuntimeError;
      }
      if f.osOpen || f.newFd in device.fds {
        return OsError;
      }
      device.fds := device.fds + {f.newFd};
      if (config.exclusive && f.lock) || f.apply {
        device.fds := device.fds - {f.newFd};
        assert device.fds == old(device.fds);
        return OsError;
      }
      fd := f.newFd;
      this.config := Some(config);
      outcome := Normal;
    }

    method TuneOpened(config: SerialConfig, f: OpenFaults) returns (outcome: Outcome)
      requires device.Snapshot().Valid()
      modifies this, device
      ensures Snapshot() == Tune(old(Snapshot()), config, f).state
      ensures outcome == Tune(old(Snapshot()), config, f).outcome
    {
      outcome := Normal;
      if config.lowLatency {
        outcome := EnableLowLatencyMode(config.policy, f);
      }
      if outcome == Normal && config.rs485.Some? {
        outcome := ApplyRs485Config(config.rs485.value, config.policy, f.rs485);
      }
    }

    method Open(config: SerialConfig, f: OpenFaults, onFailure: CloseFaults) returns (outcome: Outcome)
      requires device.Snapshot().Valid()
      modifies this, device
      ensures Snapshot() == OpenStep(old(Snapshot()), config, f, onFailure).state
      ensures outcome == OpenStep(old(Snapshot()), config, f, onFailure).outcome
    {
      outcome := OpenDescriptor(config, f);
      if outcome == Normal {
        outcome := TuneOpened(config, f);
        if outcome != Normal {
          Close(onFailure);
        }
      }
    }

    method Configure(config: SerialConfig, f: ConfigureFaults) returns (outcome: Outcome)
      requires device.Snapshot().Valid()
      modifies this, device
      ensures Snapshot() == ConfigureStep(old(Snapshot()), config, f).state
      ensures outcome == ConfigureStep(old(Snapshot()), config, f).outcome
    {
      if fd < 0 || f.apply {
        return OsError;
      }
      this.config := Some(config);
      outcome := Normal;
      if config.rs485.Some? {
        outcome := ApplyRs485Config(config.rs485.value, config.policy, f.rs485);
      } else if savedRs485.Some? {
        var _ := device.SetRs485(savedRs485.value, f.restoreRs485);
        savedRs485 := None;
      }
    }
  }
}
