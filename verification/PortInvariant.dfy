/**
 What holds in every reachable state of one port: the guards and locks admit one task
 each, no descriptor is used that the port has given up, no byte is lost or repeated,
 and the configuration is the last one that was applied.
*/
module PortInvariant {
  import opened Types
  import opened MockBackend
  import opened PortSystem

  /** The one task inside each guard, if any. */
  datatype Holders = Holders(send: Option<TaskId>, receive: Option<TaskId>)

  // ---------------------------------------------------------------------
  // The invariant, by topic
  // ---------------------------------------------------------------------

  predicate GuardInv(s: Sys, h: Holders) {
    && s.port.sendGuard == h.send.Some?
    && s.port.receiveGuard == h.receive.Some?
    && (h.send.Some? ==> h.send.value in s.tasks)
    && (h.receive.Some? ==> h.receive.value in s.tasks)
    && (forall t | t in s.tasks :: InSend(s.tasks[t]) <==> h.send == Some(t))
    && (forall t | t in s.tasks :: InReceive(s.tasks[t]) <==> h.receive == Some(t))
    && (s.mock.breakAsserted <==> h.send.Some? && s.tasks[h.send.value].SleepBreak?)
  }

  predicate LockInv(s: Sys) {
    && (s.port.configureLock.Some? ==> s.port.configureLock.value in s.tasks)
    && (s.port.closeLock.Some? ==> s.port.closeLock.value in s.tasks)
    && (forall t | t in s.tasks :: s.tasks[t].ConfigureHold? <==> s.port.configureLock == Some(t))
    && (forall t | t in s.tasks :: s.tasks[t].CloseHold? <==> s.port.closeLock == Some(t))
  }

  predicate DescriptorInv(s: Sys) {
    && (s.port.closed <==> s.mock.fd == -1)
    && (s.port.closed <==> !s.mock.isOpen)
    && s.closes == (if s.port.closed then 1 else 0)
    && (!s.port.closed ==> s.mock.fd in s.table && s.table[s.mock.fd] == Mine)
    && (forall n | n in s.table :: n >= 0 && (n != s.mock.fd ==> s.table[n] == Foreign))
    && (forall t | t in s.tasks :: ParkedOk(s.port.closed, s.mock.fd, s.tasks[t]))
    && (forall i | 0 <= i < |s.touched| :: s.touched[i] == Mine)
  }

  /** A parked wait is on the port's own descriptor, and is no longer registered after close. */
  predicate ParkedOk(closed: bool, own: int, task: Task) {
    match task
    case AwaitReadable(fd, wake, _) => if closed then wake != Waiting else fd == own && wake != Closing
    case AwaitWritable(fd, wake, _, offset) => if closed then wake != Waiting else fd == own && wake != Closing
    case _ => true
  }

  predicate ReceiveInv(s: Sys) {
    && (s.port.closed ==> !s.intact)
    && (s.intact ==> s.received + s.inbox == s.delivered)
  }

  /** The accepted front of every send, in the order the sends got past the guard. */
  function Contributions(sends: seq<SendRecord>): seq<Byte> {
    if sends == [] then []
    else Contributions(sends[..|sends| - 1]) + Contribution(sends[|sends| - 1])
  }

  function Contribution(r: SendRecord): seq<Byte> {
    if r.count <= |r.payload| then r.payload[..r.count] else []
  }

  predicate RecordOk(r: SendRecord) {
    && 0 < |r.payload|
    && r.count <= |r.payload|
    && (r.status == Finished ==> r.count == |r.payload|)
  }

  predicate SendsOk(accepted: seq<Byte>, sends: seq<SendRecord>) {
    && accepted == Contributions(sends)
    && (forall i | 0 <= i < |sends| :: RecordOk(sends[i]))
    && (forall i | 0 <= i < |sends| - 1 :: sends[i].status != InFlight)
  }

  predicate SendInv(s: Sys, h: Holders) {
    && SendsOk(s.accepted, s.sends)
    && (if h.send.Some? && h.send.value in s.tasks then LastSendOk(s.sends, h.send.value, s.tasks[h.send.value])
        else LastSendOk(s.sends, 0, SleepDrain))
  }

  /** The record in flight, if any, is the last one and agrees with the writer's local variables. */
  predicate LastSendOk(sends: seq<SendRecord>, t: TaskId, holder: Task) {
    if holder.AwaitWritable? then
      sends != [] && sends[|sends| - 1] == SendRecord(t, holder.payload, holder.offset, InFlight)
    else
      sends != [] ==> sends[|sends| - 1].status != InFlight
  }

  predicate ConfigInv(s: Sys) {
    s.applied != [] && s.port.config == s.applied[|s.applied| - 1]
  }

  predicate Inv(s: Sys, h: Holders) {
    GuardInv(s, h) && LockInv(s) && DescriptorInv(s) && ReceiveInv(s) && SendInv(s, h) && ConfigInv(s)
  }

  predicate Live(s: Sys, fd: int) {
    fd in s.table && s.table[fd] == Mine
  }

  // ---------------------------------------------------------------------
  // Every piece of a step keeps it
  // ---------------------------------------------------------------------

  lemma TouchKeeps(s: Sys, h: Holders, fd: int)
    requires Inv(s, h)
    requires Live(s, fd)
    ensures Inv(Touch(s, fd), h)
  {
  }

  lemma FaultsKeeps(s: Sys, h: Holders, f: FaultPlan)
    requires Inv(s, h)
    ensures Inv(WithFaults(s, f), h)
  {
  }

  lemma TakeKeeps(s: Sys, h: Holders, bytes: seq<Byte>)
    requires Inv(s, h)
    requires bytes <= s.inbox
    ensures Inv(Take(s, bytes), h)
  {
    assert s.received + bytes + s.inbox[|bytes|..] == s.received + s.inbox;
  }

  /** `t` is no longer inside a guard. */
  function Without(h: Holders, t: TaskId): Holders {
    Holders(
      if h.send == Some(t) then None else h.send,
      if h.receive == Some(t) then None else h.receive)
  }

  lemma UnwindKeepsControl(s: Sys, h: Holders, t: TaskId, outcome: Outcome)
    requires GuardInv(s, h) && LockInv(s)
    requires t in s.tasks
    ensures GuardInv(Unwind(s, t, outcome), Without(h, t)) && LockInv(Unwind(s, t, outcome))
  {
  }

  /** Replacing the record in flight changes what was contributed only by its own front. */
  lemma ReplaceLastKeeps(accepted: seq<Byte>, sends: seq<SendRecord>, r: SendRecord, more: seq<Byte>)
    requires SendsOk(accepted, sends) && sends != [] && RecordOk(r)
    requires Contribution(r) == Contribution(sends[|sends| - 1]) + more
    ensures SendsOk(accepted + more, WithLast(sends, r))
  {
    var front := sends[..|sends| - 1];
    var next := WithLast(sends, r);
    assert next[..|next| - 1] == front;
    assert Contributions(next) == Contributions(front) + Contribution(sends[|sends| - 1]) + more;
  }

  lemma UnwindKeepsSends(s: Sys, h: Holders, t: TaskId, outcome: Outcome)
    requires GuardInv(s, h) && SendInv(s, h)
    requires t in s.tasks
    requires s.tasks[t].AwaitWritable? && !outcome.Raised? ==> s.tasks[t].offset == |s.tasks[t].payload|
    ensures SendInv(Unwind(s, t, outcome), Without(h, t))
  {
    if s.tasks[t].AwaitWritable? {
      var last := s.sends[|s.sends| - 1];
      ReplaceLastKeeps(s.accepted, s.sends, last.(status := StatusOf(outcome)), []);
      assert s.accepted + [] == s.accepted;
    }
  }

  lemma UnwindKeeps(s: Sys, h: Holders, t: TaskId, outcome: Outcome)
    requires Inv(s, h)
    requires t in s.tasks
    requires s.tasks[t].AwaitWritable? && !outcome.Raised? ==> s.tasks[t].offset == |s.tasks[t].payload|
    ensures Inv(Unwind(s, t, outcome), Without(h, t))
  {
    UnwindKeepsControl(s, h, t, outcome);
    UnwindKeepsSends(s, h, t, outcome);
  }

  lemma EndKeeps(s: Sys, h: Holders, t: TaskId, outcome: Outcome)
    requires Inv(s, h)
    requires t !in s.tasks
    ensures Inv(End(s, t, outcome), h)
  {
  }

  lemma EnterReceiveKeeps(s: Sys, h: Holders, t: TaskId, want: Want)
    requires Inv(s, h)
    requires t !in s.tasks && !s.port.receiveGuard && !s.port.closed
    ensures Inv(EnterReceive(s, t, want), h.(receive := Some(t)))
  {
  }

  lemma EnterGuardedKeeps(s: Sys, h: Holders, t: TaskId, task: Task)
    requires Inv(s, h)
    requires t !in s.tasks && !s.port.sendGuard
    requires task in {SleepDrain, InDrainThread(false), SleepBreak}
    ensures Inv(EnterGuarded(s, t, task), h.(send := Some(t)))
  {
  }

  lemma NewRecordKeeps(accepted: seq<Byte>, sends: seq<SendRecord>, t: TaskId, payload: seq<Byte>)
    requires SendsOk(accepted, sends) && LastSendOk(sends, t, SleepDrain) && payload != []
    ensures SendsOk(accepted, sends + [SendRecord(t, payload, 0, InFlight)])
  {
    var r := SendRecord(t, payload, 0, InFlight);
    var next := sends + [r];
    assert next[..|next| - 1] == sends;
    assert Contributions(next) == accepted + Contribution(r);
    assert accepted + [] == accepted;
  }

  lemma EnterSendKeeps(s: Sys, h: Holders, t: TaskId, payload: seq<Byte>)
    requires Inv(s, h)
    requires t !in s.tasks && !s.port.sendGuard && !s.port.closed && payload != []
    ensures Inv(EnterSend(s, t, payload), h.(send := Some(t)))
  {
    NewRecordKeeps(s.accepted, s.sends, t, payload);
  }

  lemma BeginConfigureKeeps(s: Sys, h: Holders, t: TaskId, config: SerialConfig)
    requires Inv(s, h)
    requires t in s.tasks ==> s.tasks[t].ConfigureWait?
    ensures Inv(BeginConfigure(s, t, config), h)
  {
  }

  lemma BeginCloseKeeps(s: Sys, h: Holders, t: TaskId)
    requires Inv(s, h)
    requires t in s.tasks ==> s.tasks[t].CloseWait?
    ensures Inv(BeginClose(s, t), h)
  {
  }

  lemma ReparkKeeps(s: Sys, h: Holders, t: TaskId, task: Task)
    requires Inv(s, h)
    requires t in s.tasks && ParkedOk(s.port.closed, s.mock.fd, task)
    requires (task.AwaitReadable? && s.tasks[t].AwaitReadable?)
          || (task.AwaitWritable? && s.tasks[t].AwaitWritable?
              && task.payload == s.tasks[t].payload && task.offset == s.tasks[t].offset)
          || (task.InDrainThread? && s.tasks[t].InDrainThread?)
          || task == s.tasks[t]
    ensures Inv(Put(s, t, task), h)
  {
  }

  lemma AcceptKeepsSends(s: Sys, h: Holders, t: TaskId, fd: int, payload: seq<Byte>, offset: nat, n: nat)
    requires GuardInv(s, h) && SendInv(s, h)
    requires t in s.tasks && s.tasks[t].AwaitWritable?
    requires s.tasks[t].payload == payload && s.tasks[t].offset == offset
    requires offset + n <= |payload|
    ensures SendInv(Accept(s, t, fd, payload, offset, n), h)
  {
    AcceptedRecord(s.accepted, s.sends, t, payload, offset, n);
  }

  lemma AcceptedRecord(accepted: seq<Byte>, sends: seq<SendRecord>, t: TaskId, payload: seq<Byte>, offset: nat, n: nat)
    requires SendsOk(accepted, sends) && offset + n <= |payload|
    requires sends != [] && sends[|sends| - 1] == SendRecord(t, payload, offset, InFlight)
    ensures SendsOk(accepted + payload[offset..offset + n], WithLast(sends, SendRecord(t, payload, offset + n, InFlight)))
  {
    assert payload[..offset + n] == payload[..offset] + payload[offset..offset + n];
    assert RecordOk(sends[|sends| - 1]);
    ReplaceLastKeeps(accepted, sends, SendRecord(t, payload, offset + n, InFlight), payload[offset..offset + n]);
  }

  lemma AcceptKeeps(s: Sys, h: Holders, t: TaskId, fd: int, payload: seq<Byte>, offset: nat, n: nat)
    requires Inv(s, h) && !s.port.closed && fd == s.mock.fd
    requires t in s.tasks && s.tasks[t].AwaitWritable?
    requires s.tasks[t].payload == payload && s.tasks[t].offset == offset
    requires offset + n <= |payload|
    ensures Inv(Accept(s, t, fd, payload, offset, n), h)
  {
    AcceptKeepsSends(s, h, t, fd, payload, offset, n);
  }

  lemma CloseKeepsControl(s: Sys, h: Holders)
    requires GuardInv(s, h) && LockInv(s)
    ensures GuardInv(CloseBody(s), h) && LockInv(CloseBody(s))
  {
    var s' := CloseBody(s);
    forall t | t in s.tasks
      ensures t in s'.tasks
      ensures InSend(s'.tasks[t]) == InSend(s.tasks[t]) && InReceive(s'.tasks[t]) == InReceive(s.tasks[t])
      ensures s'.tasks[t].ConfigureHold? == s.tasks[t].ConfigureHold?
      ensures s'.tasks[t].CloseHold? == s.tasks[t].CloseHold?
      ensures s'.tasks[t].SleepBreak? == s.tasks[t].SleepBreak?
    {
    }
  }

  lemma CloseKeepsDescriptor(s: Sys, h: Holders)
    requires DescriptorInv(s) && !s.port.closed
    ensures DescriptorInv(CloseBody(s))
  {
    forall t | t in s.tasks
      ensures ParkedOk(true, -1, Notified(s.tasks[t], s.mock.fd))
    {
      assert ParkedOk(false, s.mock.fd, s.tasks[t]);
    }
  }

  lemma CloseKeeps(s: Sys, h: Holders)
    requires Inv(s, h) && !s.port.closed
    ensures Inv(CloseBody(s), h)
  {
    CloseKeepsControl(s, h);
    CloseKeepsDescriptor(s, h);
  }

  lemma ConfigureKeeps(s: Sys, h: Holders, config: SerialConfig, applied: Applied)
    requires Inv(s, h)
    ensures Inv(ConfigureBody(s, config, applied), h)
  {
  }

  // ---------------------------------------------------------------------
  // Every step keeps it
  // ---------------------------------------------------------------------

  lemma DrainTurnKeeps(s: Sys, h: Holders, t: TaskId, env: Env) returns (h': Holders)
    requires Inv(s, h)
    requires t in s.tasks && s.tasks[t] == SleepDrain
    ensures Inv(DrainTurn(s, t, env), h')
  {
    h' := h;
    if s.port.closed {
      UnwindKeeps(s, h, t, Raised(PortClosed));
      h' := Without(h, t);
    } else {
      var s1 := Touch(s, s.mock.fd);
      TouchKeeps(s, h, s.mock.fd);
      if env.probe.ProbeFailed? {
        UnwindKeeps(s1, h, t, Raised(OsError(EOTHER)));
        h' := Without(h, t);
      } else if env.probe.pending <= 0 {
        UnwindKeeps(s1, h, t, Completed);
        h' := Without(h, t);
      } else {
        ReparkKeeps(s1, h, t, SleepDrain);
      }
    }
  }

  lemma ReadTurnKeeps(s: Sys, h: Holders, t: TaskId, fd: int, room: nat, io: SocketIo) returns (h': Holders)
    requires Inv(s, h) && !s.port.closed && fd == s.mock.fd
    requires t in s.tasks && s.tasks[t].AwaitReadable?
    ensures Inv(ReadTurn(s, t, fd, room, io), h')
  {
    var r := ReadResultOf(s.mock, s.inbox, room, io);
    var s1 := WithFaults(Touch(s, s.mock.fd), AfterRead(s.mock.faults));
    TouchKeeps(s, h, s.mock.fd);
    FaultsKeeps(Touch(s, s.mock.fd), h, AfterRead(s.mock.faults));
    h' := Without(h, t);
    match r
    case ReadRaised(e) =>
      if e == EAGAIN || e == EINTR {
        TouchKeeps(s1, h, fd);
        ReparkKeeps(Touch(s1, fd), h, t, AwaitReadable(fd, Waiting, Buffer(room)));
        h' := h;
      } else {
        UnwindKeeps(s1, h, t, Raised(OsError(e)));
      }
    case Data(bytes) =>
      if bytes == [] {
        UnwindKeeps(s1, h, t, Raised(Disconnected));
      } else {
        TakeKeeps(s1, h, bytes);
        UnwindKeeps(Take(s1, bytes), h, t, Returned(bytes));
      }
  }

  lemma WrittenKeeps(s: Sys, h: Holders, t: TaskId, fd: int, payload: seq<Byte>, offset: nat, n: nat)
    returns (h': Holders)
    requires Inv(s, h) && !s.port.closed && fd == s.mock.fd
    requires t in s.tasks && s.tasks[t].AwaitWritable?
    requires s.tasks[t].payload == payload && s.tasks[t].offset == offset
    requires offset + n <= |payload|
    ensures var s2 := Accept(s, t, fd, payload, offset, n);
            Inv(if offset + n < |payload| then Touch(s2, fd) else Unwind(s2, t, Completed), h')
  {
    var s2 := Accept(s, t, fd, payload, offset, n);
    AcceptKeeps(s, h, t, fd, payload, offset, n);
    if offset + n < |payload| {
      TouchKeeps(s2, h, fd);
      h' := h;
    } else {
      UnwindKeeps(s2, h, t, Completed);
      h' := Without(h, t);
    }
  }

  lemma WriteTurnKeeps(s: Sys, h: Holders, t: TaskId, fd: int, payload: seq<Byte>, offset: nat, io: SocketIo)
    returns (h': Holders)
    requires Inv(s, h) && !s.port.closed && fd == s.mock.fd
    requires t in s.tasks && s.tasks[t].AwaitWritable?
    requires s.tasks[t].payload == payload && s.tasks[t].offset == offset && offset <= |payload|
    ensures Inv(WriteTurn(s, t, fd, payload, offset, io), h')
  {
    var r := WriteResultOf(s.mock, |payload| - offset, io);
    var s1 := WithFaults(Touch(s, s.mock.fd), AfterWrite(s.mock.faults));
    TouchKeeps(s, h, s.mock.fd);
    FaultsKeeps(Touch(s, s.mock.fd), h, AfterWrite(s.mock.faults));
    h' := Without(h, t);
    match r
    case WriteRaised(e) =>
      if e == EAGAIN || e == EINTR {
        TouchKeeps(s1, h, fd);
        ReparkKeeps(Touch(s1, fd), h, t, AwaitWritable(fd, Waiting, payload, offset));
        h' := h;
      } else {
        UnwindKeeps(s1, h, t, Raised(OsError(e)));
      }
    case Wrote(n) => h' := WrittenKeeps(s1, h, t, fd, payload, offset, n);
  }

  lemma BeginReceiveKeeps(s: Sys, h: Holders, t: TaskId, want: Want) returns (h': Holders)
    requires Inv(s, h) && t !in s.tasks
    ensures Inv(BeginReceive(s, t, want), h')
  {
    h' := h;
    if s.port.receiveGuard {
      EndKeeps(s, h, t, Raised(Busy));
    } else if s.port.closed {
      EndKeeps(s, h, t, Raised(PortClosed));
    } else {
      TouchKeeps(s, h, s.mock.fd);
      EnterReceiveKeeps(Touch(s, s.mock.fd), h, t, want);
      h' := h.(receive := Some(t));
    }
  }

  lemma BeginSendKeeps(s: Sys, h: Holders, t: TaskId, payload: seq<Byte>) returns (h': Holders)
    requires Inv(s, h) && t !in s.tasks
    ensures Inv(BeginSend(s, t, payload), h')
  {
    h' := h;
    if payload == [] {
      EndKeeps(s, h, t, if s.port.closed then Raised(PortClosed) else Completed);
    } else if s.port.sendGuard {
      EndKeeps(s, h, t, Raised(Busy));
    } else if s.port.closed {
      EndKeeps(s, h, t, Raised(PortClosed));
    } else {
      TouchKeeps(s, h, s.mock.fd);
      EnterSendKeeps(Touch(s, s.mock.fd), h, t, payload);
      h' := h.(send := Some(t));
    }
  }

  /** The calls that take the send guard without writing: drain, drain_exact, send_break. */
  lemma BeginGuardedKeeps(s: Sys, h: Holders, t: TaskId, call: Call, env: Env) returns (h': Holders)
    requires Inv(s, h) && t !in s.tasks
    requires call.Drain? || call.DrainExact? || call.SendBreak?
    ensures Inv(BeginStep(s, t, call, env), h')
  {
    h' := h;
    if call.SendBreak? && !call.durationOk {
      EndKeeps(s, h, t, Raised(ValueError));
    } else if s.port.sendGuard {
      EndKeeps(s, h, t, Raised(Busy));
    } else if call.Drain? {
      EnterGuardedKeeps(s, h, t, SleepDrain);
      h' := DrainTurnKeeps(EnterGuarded(s, t, SleepDrain), h.(send := Some(t)), t, env);
    } else if s.port.closed {
      EndKeeps(s, h, t, Raised(PortClosed));
    } else if call.SendBreak? && !env.breakOk {
      EndKeeps(s, h, t, Raised(OsError(EOTHER)));
    } else {
      EnterGuardedKeeps(s, h, t, if call.SendBreak? then SleepBreak else InDrainThread(false));
      h' := h.(send := Some(t));
    }
  }

  lemma ResetKeeps(s: Sys, h: Holders)
    requires Inv(s, h)
    ensures Inv(s.(inbox := [], intact := false), h)
  {
  }

  lemma BeginKeeps(s: Sys, h: Holders, t: TaskId, call: Call, env: Env) returns (h': Holders)
    requires Inv(s, h) && t !in s.tasks
    ensures Inv(BeginStep(s, t, call, env), h')
  {
    h' := h;
    match call
    case Receive(room) =>
      if room <= 0 {
        EndKeeps(s, h, t, Raised(ValueError));
      } else {
        h' := BeginReceiveKeeps(s, h, t, Buffer(room));
      }
    case ReceiveAvailable(limit) => h' := BeginReceiveKeeps(s, h, t, Queued(limit));
    case Send(payload) => h' := BeginSendKeeps(s, h, t, payload);
    case Configure(config) => BeginConfigureKeeps(s, h, t, config);
    case Aclose => BeginCloseKeeps(s, h, t);
    case ResetInput =>
      if s.port.closed {
        EndKeeps(s, h, t, Raised(PortClosed));
      } else {
        TouchKeeps(s, h, s.mock.fd);
        ResetKeeps(Touch(s, s.mock.fd), h);
        EndKeeps(Touch(s, s.mock.fd).(inbox := [], intact := false), h, t, Completed);
      }
    case _ => h' := BeginGuardedKeeps(s, h, t, call, env);
  }

  lemma ResumeReadKeeps(s: Sys, h: Holders, t: TaskId, env: Env) returns (h': Holders)
    requires Inv(s, h) && t in s.tasks && s.tasks[t].AwaitReadable?
    ensures Inv(ResumeStep(s, t, env), h')
  {
    var AwaitReadable(fd, wake, want) := s.tasks[t];
    assert ParkedOk(s.port.closed, s.mock.fd, s.tasks[t]);
    h' := if wake == Waiting then h else Without(h, t);
    if wake == Closing {
      UnwindKeeps(s, h, t, Raised(ClosedResource));
    } else if wake == Ready && s.port.closed {
      UnwindKeeps(s, h, t, Raised(PortClosed));
    } else if wake == Ready {
      if want.Buffer? {
        h' := ReadTurnKeeps(s, h, t, fd, want.size, env.io);
      } else {
        var s1 := Touch(s, s.mock.fd);
        TouchKeeps(s, h, s.mock.fd);
        var size := AvailableSize(s, want.limit);
        if env.probe.ProbeFailed? {
          UnwindKeeps(s1, h, t, Raised(OsError(EOTHER)));
        } else if size <= 0 {
          UnwindKeeps(s1, h, t, Returned([]));
        } else {
          h' := ReadTurnKeeps(s1, h, t, fd, size, env.io);
        }
      }
    }
  }

  lemma ResumeWriteKeeps(s: Sys, h: Holders, t: TaskId, env: Env) returns (h': Holders)
    requires Inv(s, h) && t in s.tasks && s.tasks[t].AwaitWritable?
    ensures Inv(ResumeStep(s, t, env), h')
  {
    var AwaitWritable(fd, wake, payload, offset) := s.tasks[t];
    assert ParkedOk(s.port.closed, s.mock.fd, s.tasks[t]);
    assert RecordOk(s.sends[|s.sends| - 1]);
    h' := if wake == Waiting then h else Without(h, t);
    if wake == Closing {
      UnwindKeeps(s, h, t, Raised(ClosedResource));
    } else if wake == Ready && s.port.closed {
      UnwindKeeps(s, h, t, Raised(PortClosed));
    } else if wake == Ready {
      h' := WriteTurnKeeps(s, h, t, fd, payload, offset, env.io);
    }
  }

  lemma ResumeConfigureKeeps(s: Sys, h: Holders, t: TaskId, env: Env)
    requires Inv(s, h) && t in s.tasks && s.tasks[t].ConfigureHold?
    ensures Inv(ResumeStep(s, t, env), Without(h, t))
  {
    if s.port.closed {
      UnwindKeeps(s, h, t, Raised(PortClosed));
    } else {
      var config := s.tasks[t].config;
      ConfigureKeeps(s, h, config, env.applied);
      UnwindKeeps(ConfigureBody(s, config, env.applied), h, t,
                  if env.applied.AppliedOk? then Completed else Raised(OsError(EOTHER)));
    }
  }

  lemma ResumeCloseKeeps(s: Sys, h: Holders, t: TaskId, env: Env)
    requires Inv(s, h) && t in s.tasks && s.tasks[t].CloseHold?
    ensures Inv(ResumeStep(s, t, env), Without(h, t))
  {
    if s.port.closed {
      UnwindKeeps(s, h, t, Completed);
    } else {
      TouchKeeps(s, h, s.mock.fd);
      var s1 := Touch(s, s.mock.fd);
      CloseKeeps(s1, h);
      UnwindKeeps(CloseBody(s1), h, t, Completed);
    }
  }

  lemma ResumeKeeps(s: Sys, h: Holders, t: TaskId, env: Env) returns (h': Holders)
    requires Inv(s, h) && t in s.tasks
    ensures Inv(ResumeStep(s, t, env), h')
  {
    h' := Without(h, t);
    match s.tasks[t]
    case AwaitReadable(_, _, _) => h' := ResumeReadKeeps(s, h, t, env);
    case AwaitWritable(_, _, _, _) => h' := ResumeWriteKeeps(s, h, t, env);
    case SleepDrain => h' := DrainTurnKeeps(s, h, t, env);
    case InDrainThread(started) =>
      if started {
        UnwindKeeps(s, h, t, if env.probe.ProbeFailed? then Raised(OsError(EOTHER)) else Completed);
      } else {
        h' := h;
      }
    case SleepBreak => UnwindKeeps(s, h, t, Completed);
    case ConfigureHold(_) => ResumeConfigureKeeps(s, h, t, env);
    case CloseHold => ResumeCloseKeeps(s, h, t, env);
    case _ => h' := h;
  }

  lemma DeliverKeeps(s: Sys, h: Holders, bytes: seq<Byte>)
    requires Inv(s, h)
    ensures Inv(Step(s, Deliver(bytes)), h)
  {
  }

  lemma OpenOtherKeeps(s: Sys, h: Holders, fd: int)
    requires Inv(s, h)
    ensures Inv(Step(s, OpenOther(fd)), h)
  {
  }

  lemma CloseOtherKeeps(s: Sys, h: Holders, fd: int)
    requires Inv(s, h)
    ensures Inv(Step(s, CloseOther(fd)), h)
  {
  }

  lemma FireKeeps(s: Sys, h: Holders, t: TaskId)
    requires Inv(s, h) && t in s.tasks
    ensures Inv(FireStep(s, t), h)
  {
    assert ParkedOk(s.port.closed, s.mock.fd, s.tasks[t]);
    var s' := FireStep(s, t);
    if s' != s {
      ReparkKeeps(s, h, t, s'.tasks[t]);
    }
  }

  /** The induction step of every whole-run claim about one port. */
  lemma StepKeeps(s: Sys, h: Holders, a: Action) returns (h': Holders)
    requires Inv(s, h)
    ensures Inv(Step(s, a), h')
  {
    h' := h;
    match a
    case Begin(t, call, env) =>
      if t !in s.tasks { h' := BeginKeeps(s, h, t, call, env); }
    case Fire(t) =>
      if t in s.tasks { FireKeeps(s, h, t); }
    case Grant(t) =>
      if t in s.tasks && s.tasks[t].ConfigureWait? && s.port.configureLock.None? {
        BeginConfigureKeeps(s, h, t, s.tasks[t].config);
      } else if t in s.tasks && s.tasks[t].CloseWait? && s.port.closeLock.None? {
        BeginCloseKeeps(s, h, t);
      }
    case Resume(t, env) =>
      if t in s.tasks { h' := ResumeKeeps(s, h, t, env); }
    case Cancel(t) =>
      if t in s.tasks && Cancellable(s.tasks[t]) {
        UnwindKeeps(s, h, t, Raised(Cancelled));
        h' := Without(h, t);
      }
    case SetFaults(plan) => FaultsKeeps(s, h, plan);
    case Deliver(bytes) => DeliverKeeps(s, h, bytes);
    case OpenOther(fd) => OpenOtherKeeps(s, h, fd);
    case CloseOther(fd) => CloseOtherKeeps(s, h, fd);
  }

  lemma InitHolds(s: Sys)
    requires Init(s)
    ensures Inv(s, Holders(None, None))
  {
  }

  lemma {:induction false} RunKeepsFrom(s: Sys, h0: Holders, actions: seq<Action>) returns (h: Holders)
    requires Inv(s, h0)
    ensures Inv(Run(s, actions), h)
    decreases |actions|
  {
    if actions == [] {
      h := h0;
    } else {
      var front := actions[..|actions| - 1];
      var h1 := RunKeepsFrom(s, h0, front);
      h := StepKeeps(Run(s, front), h1, actions[|actions| - 1]);
    }
  }

  lemma RunKeeps(s: Sys, actions: seq<Action>) returns (h: Holders)
    requires Init(s)
    ensures Inv(Run(s, actions), h)
  {
    InitHolds(s);
    h := RunKeepsFrom(s, Holders(None, None), actions);
  }
}
