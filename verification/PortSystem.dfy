/**
 One open port as a step system.

 The code between two awaits runs without interruption, so it is one step; any number of
 tasks may be suspended between steps, and a cancellation may strike each of them. `Sys`
 is everything the tasks of one port share, plus the local variables of every suspended
 task and a history of what was done. `Step` is one step of one task, of the selector,
 of the locks, or of the world around the port.
*/
module PortSystem {
  import opened Types
  import opened MockBackend

  type TaskId = nat

  datatype Error =
    | ValueError
    | Busy
    | PortClosed
    | ClosedResource
    | Disconnected
    | OsError(errno: Errno)
    | Cancelled

  datatype Outcome = Returned(bytes: seq<Byte>) | Completed | Raised(error: Error)

  datatype Call =
    | Receive(room: int)                      // receive(max_bytes), receive_into(buffer)
    | ReceiveAvailable(limit: Option<int>)
    | Send(payload: seq<Byte>)
    | Drain
    | DrainExact
    | SendBreak(durationOk: bool)
    | Configure(newConfig: SerialConfig)
    | Aclose
    | ResetInput

  /** A parked wait: still registered, fired by the selector, or woken by notify_closing. */
  datatype Wake = Waiting | Ready | Closing

  datatype Want = Buffer(size: nat) | Queued(limit: Option<int>)

  /** Where a task is suspended, with its local variables; or how it ended. */
  datatype Task =
    | AwaitReadable(fd: int, wake: Wake, want: Want)
    | AwaitWritable(fd: int, wake: Wake, payload: seq<Byte>, offset: nat)
    | SleepDrain
    | InDrainThread(started: bool)
    | SleepBreak
    | ConfigureWait(config: SerialConfig)
    | ConfigureHold(config: SerialConfig)
    | CloseWait
    | CloseHold
    | Done(outcome: Outcome)

  /** The fields of the port object that its methods assign. */
  datatype Port = Port(
    closed: bool,
    config: SerialConfig,
    receiveGuard: bool,
    sendGuard: bool,
    configureLock: Option<TaskId>,
    closeLock: Option<TaskId>)

  /** What a descriptor number denotes in the process's table. */
  datatype Owner = Mine | Foreign | Nobody

  datatype Status = InFlight | Finished | Stopped(why: Error)

  /** One non-empty send that got past the guard: `count` bytes of what `task` sends were accepted. */
  datatype SendRecord = SendRecord(task: TaskId, payload: seq<Byte>, count: nat, status: Status)

  datatype Probe = Pending(pending: int) | ProbeFailed

  /** How backend.configure ended; a failing one may already have stored the new config. */
  datatype Applied = AppliedOk | ApplyFailed(stored: bool)

  /** What the world answers during one step. */
  datatype Env = Env(io: SocketIo, probe: Probe, applied: Applied, breakOk: bool)

  datatype Sys = Sys(
    port: Port,
    mock: State,
    inbox: seq<Byte>,
    tasks: map<TaskId, Task>,
    table: map<int, Owner>,
    // history
    delivered: seq<Byte>,
    received: seq<Byte>,
    accepted: seq<Byte>,
    sends: seq<SendRecord>,
    touched: seq<Owner>,
    applied: seq<SerialConfig>,
    closes: nat,
    intact: bool)

  datatype Action =
    | Begin(task: TaskId, call: Call, env: Env)
    | Fire(task: TaskId)
    | Grant(task: TaskId)
    | Resume(task: TaskId, env: Env)
    | Cancel(task: TaskId)
    | SetFaults(plan: FaultPlan)
    | Deliver(bytes: seq<Byte>)
    | OpenOther(fd: int)
    | CloseOther(fd: int)

  // ---------------------------------------------------------------------
  // Pieces of a step
  // ---------------------------------------------------------------------

  function Resolve(table: map<int, Owner>, fd: int): Owner {
    if fd in table then table[fd] else Nobody
  }

  /** Record that the descriptor number `fd` was waited on, read, written or queried. */
  function Touch(s: Sys, fd: int): Sys {
    s.(touched := s.touched + [Resolve(s.table, fd)])
  }

  function Put(s: Sys, t: TaskId, task: Task): Sys {
    s.(tasks := s.tasks[t := task])
  }

  function WithLast(sends: seq<SendRecord>, r: SendRecord): seq<SendRecord>
    requires sends != []
  {
    sends[..|sends| - 1] + [r]
  }

  function StatusOf(outcome: Outcome): Status {
    if outcome.Raised? then Stopped(outcome.error) else Finished
  }

  function CloseRecord(sends: seq<SendRecord>, outcome: Outcome): seq<SendRecord> {
    if sends == [] then sends
    else WithLast(sends, sends[|sends| - 1].(status := StatusOf(outcome)))
  }

  predicate InReceive(task: Task) {
    task.AwaitReadable?
  }

  predicate InSend(task: Task) {
    task.AwaitWritable? || task.SleepDrain? || task.InDrainThread? || task.SleepBreak?
  }

  /** What leaving the `with` blocks around `task` gives back. */
  function Released(port: Port, task: Task): Port {
    Port(
      port.closed,
      port.config,
      port.receiveGuard && !InReceive(task),
      port.sendGuard && !InSend(task),
      if task.ConfigureHold? then None else port.configureLock,
      if task.CloseHold? then None else port.closeLock)
  }

  /** Leave every `with` block the task is in, then end it; send_break clears the break first. */
  function Unwind(s: Sys, t: TaskId, outcome: Outcome): Sys
    requires t in s.tasks
  {
    var task := s.tasks[t];
    s.(tasks := s.tasks[t := Done(outcome)],
       port := Released(s.port, task),
       mock := s.mock.(breakAsserted := s.mock.breakAsserted && !task.SleepBreak?),
       sends := if task.AwaitWritable? then CloseRecord(s.sends, outcome) else s.sends)
  }

  function WithFaults(s: Sys, faults: FaultPlan): Sys {
    s.(mock := s.mock.(faults := faults))
  }

  /** Bytes leave the queue and, with no await in between, are what the call returns. */
  function Take(s: Sys, bytes: seq<Byte>): Sys
    requires bytes <= s.inbox
  {
    s.(inbox := s.inbox[|bytes|..], received := s.received + bytes)
  }

  /** One trip round the read loop after `_raise_if_closed` passed. */
  function ReadTurn(s: Sys, t: TaskId, fd: int, room: nat, io: SocketIo): Sys
    requires t in s.tasks
  {
    var r := ReadResultOf(s.mock, s.inbox, room, io);
    var s1 := WithFaults(Touch(s, s.mock.fd), AfterRead(s.mock.faults));
    match r
    case ReadRaised(e) =>
      if e == EAGAIN || e == EINTR then
        Put(Touch(s1, fd), t, AwaitReadable(fd, Waiting, Buffer(room)))
      else
        Unwind(s1, t, Raised(OsError(e)))
    case Data(bytes) =>
      if bytes == [] then Unwind(s1, t, Raised(Disconnected))
      else Unwind(Take(s1, bytes), t, Returned(bytes))
  }

  function Minimum(a: int, b: int): int {
    if a < b then a else b
  }

  /** The buffer size receive_available settles on once the port is readable. */
  function AvailableSize(s: Sys, limit: Option<int>): int {
    var waiting := Minimum(|s.inbox|, 65536);
    var size := if waiting > 0 then waiting else s.port.config.readChunkSize;
    if limit.Some? then Minimum(size, limit.value) else size
  }

  /** The socket took `n` more bytes of the payload: `offset += written`. */
  function Accept(s: Sys, t: TaskId, fd: int, payload: seq<Byte>, offset: nat, n: nat): Sys
    requires offset + n <= |payload|
  {
    s.(accepted := s.accepted + payload[offset..offset + n],
       sends := if s.sends == [] then [] else WithLast(s.sends, SendRecord(t, payload, offset + n, InFlight)),
       tasks := s.tasks[t := AwaitWritable(fd, Waiting, payload, offset + n)])
  }

  /** One trip round the write loop after `_raise_if_closed` passed. */
  function WriteTurn(s: Sys, t: TaskId, fd: int, payload: seq<Byte>, offset: nat, io: SocketIo): Sys
    requires t in s.tasks
    requires offset <= |payload|
  {
    var r := WriteResultOf(s.mock, |payload| - offset, io);
    var s1 := WithFaults(Touch(s, s.mock.fd), AfterWrite(s.mock.faults));
    match r
    case WriteRaised(e) =>
      if e == EAGAIN || e == EINTR then
        Put(Touch(s1, fd), t, AwaitWritable(fd, Waiting, payload, offset))
      else
        Unwind(s1, t, Raised(OsError(e)))
    case Wrote(n) =>
      var s2 := Accept(s1, t, fd, payload, offset, n);
      if offset + n < |payload| then Touch(s2, fd) else Unwind(s2, t, Completed)
  }

  /** One trip round the drain loop, with the send guard held by `t`. */
  function DrainTurn(s: Sys, t: TaskId, env: Env): Sys
    requires t in s.tasks
  {
    if s.port.closed then Unwind(s, t, Raised(PortClosed))
    else
      var s1 := Touch(s, s.mock.fd);
      match env.probe
      case ProbeFailed => Unwind(s1, t, Raised(OsError(EOTHER)))
      case Pending(pending) =>
        if pending <= 0 then Unwind(s1, t, Completed) else Put(s1, t, SleepDrain)
  }

  /** `notify_closing(fd)`: every wait still registered on the number is woken. */
  function Notify(tasks: map<TaskId, Task>, fd: int): map<TaskId, Task> {
    map t | t in tasks :: Notified(tasks[t], fd)
  }

  function Notified(task: Task, fd: int): Task {
    match task
    case AwaitReadable(f, Waiting, want) => if f == fd then AwaitReadable(f, Closing, want) else task
    case AwaitWritable(f, Waiting, payload, offset) =>
      if f == fd then AwaitWritable(f, Closing, payload, offset) else task
    case _ => task
  }

  /** The body of `aclose` under the close lock, the port being open. */
  function CloseBody(s: Sys): Sys {
    var fd := s.mock.fd;
    s.(port := s.port.(closed := true),
       mock := s.mock.(isOpen := false, fd := -1),
       tasks := Notify(s.tasks, fd),
       table := s.table - {fd},
       closes := if fd != -1 then s.closes + 1 else s.closes,
       intact := false)
  }

  /** The body of `configure` under the configure lock, the port being open. */
  function ConfigureBody(s: Sys, config: SerialConfig, applied: Applied): Sys {
    var ok := applied.AppliedOk?;
    s.(mock := s.mock.(config := if ok || applied.stored then config else s.mock.config),
       port := s.port.(config := if ok then config else s.port.config),
       applied := if ok then s.applied + [config] else s.applied)
  }

  // ---------------------------------------------------------------------
  // The steps
  // ---------------------------------------------------------------------

  /** A call that ends without ever suspending. */
  function End(s: Sys, t: TaskId, outcome: Outcome): Sys {
    Put(s, t, Done(outcome))
  }

  /** Enter the receive guard and park on the descriptor. */
  function EnterReceive(s: Sys, t: TaskId, want: Want): Sys {
    s.(tasks := s.tasks[t := AwaitReadable(s.mock.fd, Waiting, want)],
       port := s.port.(receiveGuard := true))
  }

  /** Enter the send guard and park on the descriptor with the whole payload to go. */
  function EnterSend(s: Sys, t: TaskId, payload: seq<Byte>): Sys {
    s.(tasks := s.tasks[t := AwaitWritable(s.mock.fd, Waiting, payload, 0)],
       port := s.port.(sendGuard := true),
       sends := s.sends + [SendRecord(t, payload, 0, InFlight)])
  }

  /** Enter the send guard and suspend as `task`, which is not a write. */
  function EnterGuarded(s: Sys, t: TaskId, task: Task): Sys {
    s.(tasks := s.tasks[t := task],
       port := s.port.(sendGuard := true),
       mock := s.mock.(breakAsserted := s.mock.breakAsserted || task.SleepBreak?))
  }

  function BeginReceive(s: Sys, t: TaskId, want: Want): Sys {
    if s.port.receiveGuard then End(s, t, Raised(Busy))
    else if s.port.closed then End(s, t, Raised(PortClosed))
    else EnterReceive(Touch(s, s.mock.fd), t, want)
  }

  function BeginSend(s: Sys, t: TaskId, payload: seq<Byte>): Sys {
    if payload == [] then End(s, t, if s.port.closed then Raised(PortClosed) else Completed)
    else if s.port.sendGuard then End(s, t, Raised(Busy))
    else if s.port.closed then End(s, t, Raised(PortClosed))
    else EnterSend(Touch(s, s.mock.fd), t, payload)
  }

  function BeginConfigure(s: Sys, t: TaskId, config: SerialConfig): Sys {
    var free := s.port.configureLock.None?;
    s.(tasks := s.tasks[t := if free then ConfigureHold(config) else ConfigureWait(config)],
       port := s.port.(configureLock := if free then Some(t) else s.port.configureLock))
  }

  function BeginClose(s: Sys, t: TaskId): Sys {
    var free := s.port.closeLock.None?;
    s.(tasks := s.tasks[t := if free then CloseHold else CloseWait],
       port := s.port.(closeLock := if free then Some(t) else s.port.closeLock))
  }

  function BeginStep(s: Sys, t: TaskId, call: Call, env: Env): Sys
    requires t !in s.tasks
  {
    match call
    case Receive(room) =>
      if room <= 0 then End(s, t, Raised(ValueError)) else BeginReceive(s, t, Buffer(room))
    case ReceiveAvailable(limit) => BeginReceive(s, t, Queued(limit))
    case Send(payload) => BeginSend(s, t, payload)
    case Drain =>
      if s.port.sendGuard then End(s, t, Raised(Busy))
      else DrainTurn(EnterGuarded(s, t, SleepDrain), t, env)
    case DrainExact =>
      if s.port.sendGuard then End(s, t, Raised(Busy))
      else if s.port.closed then End(s, t, Raised(PortClosed))
      else EnterGuarded(s, t, InDrainThread(false))
    case SendBreak(durationOk) =>
      if !durationOk then End(s, t, Raised(ValueError))
      else if s.port.sendGuard then End(s, t, Raised(Busy))
      else if s.port.closed then End(s, t, Raised(PortClosed))
      else if !env.breakOk then End(s, t, Raised(OsError(EOTHER)))
      else EnterGuarded(s, t, SleepBreak)
    case Configure(config) => BeginConfigure(s, t, config)
    case Aclose => BeginClose(s, t)
    case ResetInput =>
      if s.port.closed then End(s, t, Raised(PortClosed))
      else End(Touch(s, s.mock.fd).(inbox := [], intact := false), t, Completed)
  }

  function ResumeStep(s: Sys, t: TaskId, env: Env): Sys
    requires t in s.tasks
  {
    match s.tasks[t]
    case AwaitReadable(fd, wake, want) =>
      if wake == Waiting then s
      else if wake == Closing then Unwind(s, t, Raised(ClosedResource))
      else if s.port.closed then Unwind(s, t, Raised(PortClosed))
      else (
        match want
        case Buffer(size) => ReadTurn(s, t, fd, size, env.io)
        case Queued(limit) =>
          var size := AvailableSize(s, limit);
          // `input_waiting` may raise.
          if env.probe.ProbeFailed? then Unwind(Touch(s, s.mock.fd), t, Raised(OsError(EOTHER)))
          else if size <= 0 then Unwind(Touch(s, s.mock.fd), t, Returned([]))
          else ReadTurn(Touch(s, s.mock.fd), t, fd, size, env.io)
      )
    case AwaitWritable(fd, wake, payload, offset) =>
      if wake == Waiting then s
      else if wake == Closing then Unwind(s, t, Raised(ClosedResource))
      else if s.port.closed then Unwind(s, t, Raised(PortClosed))
      else if offset <= |payload| then WriteTurn(s, t, fd, payload, offset, env.io)
      else s
    case SleepDrain => DrainTurn(s, t, env)
    case InDrainThread(started) =>
      if !started then s
      else Unwind(s, t, if env.probe.ProbeFailed? then Raised(OsError(EOTHER)) else Completed)
    case SleepBreak => Unwind(s, t, Completed)
    case ConfigureWait(_) => s
    case ConfigureHold(config) =>
      if s.port.closed then Unwind(s, t, Raised(PortClosed))
      else Unwind(ConfigureBody(s, config, env.applied), t,
                  if env.applied.AppliedOk? then Completed else Raised(OsError(EOTHER)))
    case CloseWait => s
    case CloseHold =>
      Unwind(if s.port.closed then s else CloseBody(Touch(s, s.mock.fd)), t, Completed)
    case Done(_) => s
  }

  function FireStep(s: Sys, t: TaskId): Sys
    requires t in s.tasks
  {
    match s.tasks[t]
    case AwaitReadable(fd, Waiting, want) => Put(s, t, AwaitReadable(fd, Ready, want))
    case AwaitWritable(fd, Waiting, payload, offset) =>
      Put(s, t, AwaitWritable(fd, Ready, payload, offset))
    case InDrainThread(_) => Put(s, t, InDrainThread(true))
    case _ => s
  }

  /** A lock that has become free is handed to a task waiting for it. */
  function GrantStep(s: Sys, t: TaskId): Sys
    requires t in s.tasks
  {
    match s.tasks[t]
    case ConfigureWait(config) =>
      if s.port.configureLock.None? then BeginConfigure(s, t, config) else s
    case CloseWait => if s.port.closeLock.None? then BeginClose(s, t) else s
    case _ => s
  }

  /** A cancellation strikes any suspended task, except that a drain thread at work is not abandoned. */
  predicate Cancellable(task: Task) {
    !task.Done? && task != InDrainThread(true)
  }

  /** An action that is not enabled leaves everything alone. */
  function Step(s: Sys, a: Action): Sys {
    match a
    case Begin(t, call, env) => if t in s.tasks then s else BeginStep(s, t, call, env)
    case Fire(t) => if t in s.tasks then FireStep(s, t) else s
    case Grant(t) => if t in s.tasks then GrantStep(s, t) else s
    case Resume(t, env) => if t in s.tasks then ResumeStep(s, t, env) else s
    case Cancel(t) =>
      if t in s.tasks && Cancellable(s.tasks[t]) then Unwind(s, t, Raised(Cancelled)) else s
    case SetFaults(plan) => WithFaults(s, plan)
    case Deliver(bytes) =>
      if s.port.closed then s
      else s.(inbox := s.inbox + bytes, delivered := s.delivered + bytes)
    case OpenOther(fd) => if fd in s.table || fd < 0 then s else s.(table := s.table[fd := Foreign])
    case CloseOther(fd) =>
      if fd in s.table && s.table[fd] == Foreign then s.(table := s.table - {fd}) else s
  }

  /** A freshly opened port: nothing running, nothing queued. */
  predicate Init(s: Sys) {
    && s.port == Port(false, s.mock.config, false, false, None, None)
    && s.mock.isOpen && 0 <= s.mock.fd && !s.mock.breakAsserted
    && s.inbox == [] && s.tasks == map[]
    && s.mock.fd in s.table && s.table[s.mock.fd] == Mine
    && (forall n | n in s.table :: n >= 0 && (n != s.mock.fd ==> s.table[n] == Foreign))
    && s.delivered == [] && s.received == [] && s.accepted == [] && s.sends == []
    && s.touched == [] && s.applied == [s.mock.config] && s.closes == 0 && s.intact
  }

  function Run(s: Sys, actions: seq<Action>): Sys
    decreases |actions|
  {
    if actions == [] then s
    else Step(Run(s, actions[..|actions| - 1]), actions[|actions| - 1])
  }
}
