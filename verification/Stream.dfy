/**
 The port object itself, updated in place over a mock backend.

 Each method is the code of one call between two awaits. It is proved to move the
 object's fields, the backend and the queue exactly as `PortSystem.Step` moves the
 corresponding value, so the claims about runs of steps are claims about these methods.
*/
module Stream {
  import opened Types
  import opened MockBackend
  import opened PortSystem

  class PosixSerialPort {
    var closed: bool
    var config: SerialConfig
    var receiveGuard: bool
    var sendGuard: bool
    var configureLock: Option<TaskId>
    var closeLock: Option<TaskId>
    const backend: Backend

    constructor (backend: Backend, config: SerialConfig)
      ensures this.backend == backend
      ensures !closed && this.config == config && !receiveGuard && !sendGuard
      ensures configureLock == None && closeLock == None
    {
      this.backend, this.config := backend, config;
      closed, receiveGuard, sendGuard := false, false, false;
      configureLock, closeLock := None, None;
    }

    /** The object and everything it reaches is in the state `s`. */
    ghost predicate Mirrors(s: Sys)
      reads this, backend, backend.sock
    {
      && s.port == Port(closed, config, receiveGuard, sendGuard, configureLock, closeLock)
      && s.mock == backend.Snapshot()
      && s.inbox == backend.sock.inbox
    }

    /** Where the calling task is after the step: ended with an outcome, or parked again. */
    ghost predicate TaskIs(s: Sys, t: TaskId, outcome: Option<Outcome>, parked: Task) {
      t in s.tasks && s.tasks[t] == if outcome.Some? then Done(outcome.value) else parked
    }

    // receive / receive_into -------------------------------------------------

    method BeginReceive(ghost s: Sys, t: TaskId, maxBytes: int, env: Env) returns (outcome: Option<Outcome>, fd: int)
      requires Mirrors(s) && t !in s.tasks
      modifies this`receiveGuard
      ensures Mirrors(Step(s, Begin(t, Receive(maxBytes), env)))
      ensures TaskIs(Step(s, Begin(t, Receive(maxBytes), env)), t, outcome,
                     AwaitReadable(fd, Waiting, Buffer(if maxBytes > 0 then maxBytes else 0)))
    {
      fd := -1;
      if maxBytes <= 0 {
        return Some(Raised(ValueError)), fd;
      }
      if receiveGuard {
        return Some(Raised(Busy)), fd;
      }
      receiveGuard := true;
      if closed {
        receiveGuard := false;
        return Some(Raised(PortClosed)), fd;
      }
      fd := backend.sock.fd;
      outcome := None;
    }

    /** How a read ends the call, if it does. */
    static function ReadOutcome(r: ReadResult): Option<Outcome> {
      match r
      case Data(bytes) => Some(if bytes == [] then Raised(Disconnected) else Returned(bytes))
      case ReadRaised(e) => if e == EAGAIN || e == EINTR then None else Some(Raised(OsError(e)))
    }

    /** One trip round the read loop, the port being open. */
    method ReadOnce(buffer: array<Byte>, io: SocketIo) returns (outcome: Option<Outcome>)
      modifies this`receiveGuard, backend`faults, backend.sock`inbox, buffer
      ensures var r := ReadResultOf(old(backend.Snapshot()), old(backend.sock.inbox), buffer.Length, io);
              && outcome == ReadOutcome(r)
              && backend.sock.inbox == if r.Data? then old(backend.sock.inbox)[|r.bytes|..] else old(backend.sock.inbox)
      ensures backend.Snapshot() == old(backend.Snapshot()).(faults := AfterRead(old(backend.faults)))
      ensures receiveGuard == (old(receiveGuard) && outcome.None?)
      ensures outcome.Some? && outcome.value.Returned? ==>
                |outcome.value.bytes| <= buffer.Length && buffer[..|outcome.value.bytes|] == outcome.value.bytes
    {
      var r := backend.ReadNonblocking(buffer, io);
      match r
      case ReadRaised(e) =>
        if e == EAGAIN || e == EINTR {
          return None;
        }
        receiveGuard := false;
        return Some(Raised(OsError(e)));
      case Data(bytes) =>
        receiveGuard := false;
        if |bytes| == 0 {
          return Some(Raised(Disconnected));
        }
        return Some(Returned(buffer[..|bytes|]));
    }

    /** The step of an open port's reader, field by field. */
    static lemma ReadTurnFields(s: Sys, t: TaskId, fd: int, room: nat, io: SocketIo)
      requires t in s.tasks && s.tasks[t].AwaitReadable?
      ensures var s' := ReadTurn(s, t, fd, room, io);
              var r := ReadResultOf(s.mock, s.inbox, room, io);
              var outcome := ReadOutcome(r);
              && s'.port == s.port.(receiveGuard := s.port.receiveGuard && outcome.None?)
              && s'.mock == s.mock.(faults := AfterRead(s.mock.faults))
              && s'.inbox == (if r.Data? then s.inbox[|r.bytes|..] else s.inbox)
              && t in s'.tasks
              && s'.tasks[t] == (if outcome.Some? then Done(outcome.value) else AwaitReadable(fd, Waiting, Buffer(room)))
    {
    }

    /** After `wait_readable(fd)` returned. */
    method ResumeReceive(ghost s: Sys, t: TaskId, fd: int, buffer: array<Byte>, env: Env)
      returns (outcome: Option<Outcome>)
      requires Mirrors(s) && t in s.tasks
      requires s.tasks[t] == AwaitReadable(fd, Ready, Buffer(buffer.Length))
      modifies this`receiveGuard, backend`faults, backend.sock`inbox, buffer
      ensures Mirrors(Step(s, Resume(t, env)))
      ensures TaskIs(Step(s, Resume(t, env)), t, outcome, AwaitReadable(fd, Waiting, Buffer(buffer.Length)))
      ensures outcome.Some? && outcome.value.Returned? ==>
                |outcome.value.bytes| <= buffer.Length && buffer[..|outcome.value.bytes|] == outcome.value.bytes
    {
      if closed {
        receiveGuard := false;
        outcome := Some(Raised(PortClosed));
      } else {
        outcome := ReadOnce(buffer, env.io);
        ReadTurnFields(s, t, fd, buffer.Length, env.io);
      }
    }

    /** The same for `receive_available`, which first sizes its buffer by what is queued. */
    method ResumeAvailable(ghost s: Sys, t: TaskId, fd: int, limit: Option<int>, env: Env)
      returns (outcome: Option<Outcome>, size: nat)
      requires Mirrors(s) && t in s.tasks
      requires s.tasks[t] == AwaitReadable(fd, Ready, Queued(limit))
      modifies this`receiveGuard, backend`faults, backend.sock`inbox
      ensures Mirrors(Step(s, Resume(t, env)))
      ensures TaskIs(Step(s, Resume(t, env)), t, outcome, AwaitReadable(fd, Waiting, Buffer(size)))
    {
      size := 0;
      if closed {
        receiveGuard := false;
        return Some(Raised(PortClosed)), size;
      }
      outcome, size := ReadAvailable(s, limit, env);
      AvailableFields(s, t, fd, limit, env);
    }

    /** The same, the port being open. */
    method ReadAvailable(ghost s: Sys, limit: Option<int>, env: Env) returns (outcome: Option<Outcome>, size: nat)
      requires Mirrors(s)
      modifies this`receiveGuard, backend`faults, backend.sock`inbox
      ensures var wanted := AvailableSize(s, limit);
              if env.probe.ProbeFailed? || wanted <= 0 then
                && outcome == Some(if env.probe.ProbeFailed? then Raised(OsError(EOTHER)) else Returned([]))
                && backend.faults == old(backend.faults) && backend.sock.inbox == old(backend.sock.inbox)
              else
                var r := ReadResultOf(s.mock, s.inbox, wanted, env.io);
                && outcome == ReadOutcome(r) && size == wanted
                && backend.faults == AfterRead(s.mock.faults)
                && backend.sock.inbox == if r.Data? then s.inbox[|r.bytes|..] else s.inbox
      ensures receiveGuard == (old(receiveGuard) && outcome.None?)
    {
      size := 0;
      if env.probe.ProbeFailed? {
        receiveGuard := false;
        return Some(Raised(OsError(EOTHER))), size;
      }
      var wanted := SizeBuffer(s, limit);
      if wanted <= 0 {
        receiveGuard := false;
        return Some(Returned([])), size;
      }
      size := wanted;
      var buffer := new Byte[size];
      outcome := ReadOnce(buffer, env.io);
    }

    method SizeBuffer(ghost s: Sys, limit: Option<int>) returns (wanted: int)
      requires Mirrors(s)
      ensures wanted == AvailableSize(s, limit)
    {
      var waiting := backend.InputWaiting();
      wanted := if waiting > 0 then waiting else config.readChunkSize;
      if limit.Some? && limit.value < wanted {
        wanted := limit.value;
      }
    }

    /** The step of an open port's `receive_available`, field by field. */
    static lemma AvailableFields(s: Sys, t: TaskId, fd: int, limit: Option<int>, env: Env)
      requires t in s.tasks && s.tasks[t] == AwaitReadable(fd, Ready, Queued(limit)) && !s.port.closed
      ensures var s' := Step(s, Resume(t, env));
              var size := AvailableSize(s, limit);
              if env.probe.ProbeFailed? || size <= 0 then
                && s'.port == s.port.(receiveGuard := false) && s'.mock == s.mock && s'.inbox == s.inbox
                && t in s'.tasks && s'.tasks[t] == Done(if env.probe.ProbeFailed? then Raised(OsError(EOTHER)) else Returned([]))
              else
                var r := ReadResultOf(s.mock, s.inbox, size, env.io);
                var outcome := ReadOutcome(r);
                && s'.port == s.port.(receiveGuard := s.port.receiveGuard && outcome.None?)
                && s'.mock == s.mock.(faults := AfterRead(s.mock.faults))
                && s'.inbox == (if r.Data? then s.inbox[|r.bytes|..] else s.inbox)
                && t in s'.tasks
                && s'.tasks[t] == (if outcome.Some? then Done(outcome.value)
                                   else AwaitReadable(fd, Waiting, Buffer(size)))
    {
      if !env.probe.ProbeFailed? && AvailableSize(s, limit) > 0 {
        ReadTurnFields(Touch(s, s.mock.fd), t, fd, AvailableSize(s, limit), env.io);
      }
    }

    // send -------------------------------------------------------------------

    method BeginSend(ghost s: Sys, t: TaskId, view: seq<Byte>, env: Env) returns (outcome: Option<Outcome>, fd: int)
      requires Mirrors(s) && t !in s.tasks
      modifies this`sendGuard
      ensures Mirrors(Step(s, Begin(t, Send(view), env)))
      ensures TaskIs(Step(s, Begin(t, Send(view), env)), t, outcome, AwaitWritable(fd, Waiting, view, 0))
    {
      fd := -1;
      if |view| == 0 {
        return Some(if closed then Raised(PortClosed) else Completed), fd;
      }
      if sendGuard {
        return Some(Raised(Busy)), fd;
      }
      sendGuard := true;
      if closed {
        sendGuard := false;
        return Some(Raised(PortClosed)), fd;
      }
      fd := backend.sock.fd;
      outcome := None;
    }

    /** How a write of `left` more bytes ends the call, if it does. */
    static function WriteOutcome(r: WriteResult, left: nat): Option<Outcome> {
      match r
      case Wrote(n) => if n < left then None else Some(Completed)
      case WriteRaised(e) => if e == EAGAIN || e == EINTR then None else Some(Raised(OsError(e)))
    }

    /** One trip round the write loop, the port being open. */
    method WriteOnce(view: seq<Byte>, offset: nat, io: SocketIo)
      returns (outcome: Option<Outcome>, newOffset: nat)
      requires backend.sock != backend.peerSock && offset <= |view|
      modifies this`sendGuard, backend`faults, backend.peerSock`inbox
      ensures var r := WriteResultOf(old(backend.Snapshot()), |view| - offset, io);
              && outcome == WriteOutcome(r, |view| - offset)
              && newOffset == offset + (if r.Wrote? then r.count else 0)
      ensures backend.Snapshot() == old(backend.Snapshot()).(faults := AfterWrite(old(backend.faults)))
      ensures sendGuard == (old(sendGuard) && outcome.None?)
      ensures backend.peerSock.inbox == old(backend.peerSock.inbox) + view[offset..newOffset]
    {
      newOffset := offset;
      assert view[offset..offset] == [];
      var r := backend.WriteNonblocking(view[offset..], io);
      match r
      case WriteRaised(e) =>
        if e == EAGAIN || e == EINTR {
          return None, newOffset;
        }
        sendGuard := false;
        return Some(Raised(OsError(e))), newOffset;
      case Wrote(n) =>
        newOffset := offset + n;
        assert view[offset..][..n] == view[offset..newOffset];
        if newOffset < |view| {
          return None, newOffset;
        }
        sendGuard := false;
        return Some(Completed), newOffset;
    }

    /** The step of an open port's writer, field by field. */
    static lemma WriteTurnFields(s: Sys, t: TaskId, fd: int, view: seq<Byte>, offset: nat, io: SocketIo)
      requires t in s.tasks && s.tasks[t] == AwaitWritable(fd, Ready, view, offset) && offset <= |view|
      ensures var s' := WriteTurn(s, t, fd, view, offset, io);
              var r := WriteResultOf(s.mock, |view| - offset, io);
              var outcome := WriteOutcome(r, |view| - offset);
              && s'.port == s.port.(sendGuard := s.port.sendGuard && outcome.None?)
              && s'.mock == s.mock.(faults := AfterWrite(s.mock.faults))
              && s'.inbox == s.inbox
              && t in s'.tasks
              && s'.tasks[t] == (if outcome.Some? then Done(outcome.value)
                 else AwaitWritable(fd, Waiting, view, offset + (if r.Wrote? then r.count else 0)))
    {
    }

    /** After `wait_writable(fd)` returned. */
    method ResumeSend(ghost s: Sys, t: TaskId, fd: int, view: seq<Byte>, offset: nat, env: Env)
      returns (outcome: Option<Outcome>, newOffset: nat)
      requires Mirrors(s) && t in s.tasks
      requires backend.sock != backend.peerSock && offset <= |view|
      requires s.tasks[t] == AwaitWritable(fd, Ready, view, offset)
      modifies this`sendGuard, backend`faults, backend.peerSock`inbox
      ensures Mirrors(Step(s, Resume(t, env)))
      ensures TaskIs(Step(s, Resume(t, env)), t, outcome, AwaitWritable(fd, Waiting, view, newOffset))
      ensures offset <= newOffset <= |view|
      ensures backend.peerSock.inbox == old(backend.peerSock.inbox) + view[offset..newOffset]
    {
      if closed {
        sendGuard := false;
        outcome, newOffset := Some(Raised(PortClosed)), offset;
        assert view[offset..offset] == [];
      } else {
        outcome, newOffset := WriteOnce(view, offset, env.io);
        WriteTurnFields(s, t, fd, view, offset, env.io);
      }
    }

    // drain ------------------------------------------------------------------

    /** Enter the send guard; the first trip round the loop is `ResumeDrain`'s code. */
    method BeginDrain(ghost s: Sys, t: TaskId, env: Env) returns (outcome: Option<Outcome>)
      requires Mirrors(s) && t !in s.tasks
      modifies this`sendGuard
      ensures Mirrors(Step(s, Begin(t, Drain, env)))
      ensures TaskIs(Step(s, Begin(t, Drain, env)), t, outcome, SleepDrain)
    {
      if sendGuard {
        return Some(Raised(Busy));
      }
      sendGuard := true;
      outcome := ProbeOnce(env.probe);
    }

    /** After the sleep. */
    method ResumeDrain(ghost s: Sys, t: TaskId, env: Env) returns (outcome: Option<Outcome>)
      requires Mirrors(s) && t in s.tasks && s.tasks[t] == SleepDrain
      modifies this`sendGuard
      ensures Mirrors(Step(s, Resume(t, env)))
      ensures TaskIs(Step(s, Resume(t, env)), t, outcome, SleepDrain)
    {
      outcome := ProbeOnce(env.probe);
    }

    method ProbeOnce(probe: Probe) returns (outcome: Option<Outcome>)
      modifies this`sendGuard
      ensures outcome == if closed then Some(Raised(PortClosed))
                         else if probe.ProbeFailed? then Some(Raised(OsError(EOTHER)))
                         else if probe.pending <= 0 then Some(Completed) else None
      ensures sendGuard == (old(sendGuard) && outcome.None?)
    {
      if closed {
        sendGuard := false;
        return Some(Raised(PortClosed));
      }
      match probe
      case ProbeFailed =>
        sendGuard := false;
        return Some(Raised(OsError(EOTHER)));
      case Pending(pending) =>
        if pending <= 0 {
          sendGuard := false;
          return Some(Completed);
        }
        return None;
    }

    // configure, send_break, aclose -------------------------------------------

    /** The configure lock is held by `t`, and the acquire has returned. */
    method ConfigureHeld(ghost s: Sys, t: TaskId, config: SerialConfig, env: Env) returns (outcome: Outcome)
      requires Mirrors(s) && t in s.tasks && s.tasks[t] == ConfigureHold(config)
      modifies this`config, this`configureLock, backend
      ensures Mirrors(Step(s, Resume(t, env)))
      ensures Step(s, Resume(t, env)).tasks[t] == Done(outcome)
    {
      if closed {
        configureLock := None;
        return Raised(PortClosed);
      }
      match env.applied {
        case AppliedOk =>
          backend.Configure(config);
          this.config := config;
          outcome := Completed;
        case ApplyFailed(stored) =>
          if stored {
            backend.Configure(config);
          }
          outcome := Raised(OsError(EOTHER));
      }
      configureLock := None;
    }

    method BeginBreak(ghost s: Sys, t: TaskId, durationOk: bool, env: Env) returns (outcome: Option<Outcome>)
      requires Mirrors(s) && t !in s.tasks
      modifies this`sendGuard, backend
      ensures Mirrors(Step(s, Begin(t, SendBreak(durationOk), env)))
      ensures TaskIs(Step(s, Begin(t, SendBreak(durationOk), env)), t, outcome, SleepBreak)
    {
      if !durationOk {
        return Some(Raised(ValueError));
      }
      if sendGuard {
        return Some(Raised(Busy));
      }
      sendGuard := true;
      if closed {
        sendGuard := false;
        return Some(Raised(PortClosed));
      }
      if !env.breakOk {
        sendGuard := false;
        return Some(Raised(OsError(EOTHER)));
      }
      backend.SetBreak(true);
      outcome := None;
    }

    /** The end of the sleep, by waking up or by cancellation: the `finally` clause. */
    method EndBreak(ghost s: Sys, t: TaskId, ghost cancelled: bool, ghost env: Env)
      requires Mirrors(s) && t in s.tasks && s.tasks[t] == SleepBreak
      modifies this`sendGuard, backend
      ensures Mirrors(Step(s, if cancelled then Cancel(t) else Resume(t, env)))
    {
      backend.SetBreak(false);
      sendGuard := false;
    }

    /** The close lock is held by `t`; the caller wakes the waits on `notified`. */
    method CloseHeld(ghost s: Sys, t: TaskId, ghost env: Env) returns (notified: int)
      requires Mirrors(s) && t in s.tasks && s.tasks[t] == CloseHold
      modifies this`closed, this`closeLock, backend, backend.sock
      ensures Mirrors(Step(s, Resume(t, env)))
      ensures notified == if s.port.closed then -1 else old(backend.sock.fd)
      ensures !s.port.closed ==> Step(s, Resume(t, env)).tasks == Notify(s.tasks, notified)[t := Done(Completed)]
    {
      notified := -1;
      if !closed {
        closed := true;
        notified := backend.sock.fd;
        var _ := backend.Close();
      }
      closeLock := None;
    }
  }
}
