/**
 What each call of a port does, stated by its arguments, the state it finds and what the
 world answers: when it is refused, where it parks, when it ends and with what.
*/
module PortOutcomes {
  import opened Types
  import opened MockBackend
  import opened PortSystem
  import opened PortInvariant
  import opened PortTheorems

  // ---------------------------------------------------------------------
  // The first step of a call
  // ---------------------------------------------------------------------

  /** The outcome of the call in its first step, None when it is suspended instead. */
  function FirstOutcome(s: Sys, t: TaskId, call: Call, env: Env): Option<Outcome> {
    var s' := Step(s, Begin(t, call, env));
    if t in s'.tasks && s'.tasks[t].Done? then Some(s'.tasks[t].outcome) else None
  }

  /** Bad arguments come first, then the guard, then the closed port. */
  lemma RefusedExactlyWhen(s: Sys, t: TaskId, call: Call, env: Env)
    requires t !in s.tasks
    ensures FirstOutcome(s, t, call, env) == Some(Raised(ValueError))
            <==> (call.Receive? && call.room <= 0) || (call.SendBreak? && !call.durationOk)
    ensures FirstOutcome(s, t, call, env) == Some(Raised(Busy))
            <==> (NeedsSend(call) && s.port.sendGuard) || (NeedsReceive(call) && s.port.receiveGuard)
    ensures FirstOutcome(s, t, call, env) == Some(Raised(PortClosed))
            <==> s.port.closed
                 && ((NeedsSend(call) && !s.port.sendGuard) || (NeedsReceive(call) && !s.port.receiveGuard)
                     || call.ResetInput? || call == Send([]))
  {
  }

  /** A receive let in parks on the port's own descriptor, with the room or the limit it was given. */
  lemma ReceiveParks(s: Sys, t: TaskId, call: Call, env: Env)
    requires t !in s.tasks && NeedsReceive(call) && !s.port.receiveGuard && !s.port.closed
    ensures var s' := Step(s, Begin(t, call, env));
            && s'.port.receiveGuard && s'.inbox == s.inbox && s'.mock == s.mock
            && s'.tasks == s.tasks[t := AwaitReadable(s.mock.fd, Waiting,
                 if call.Receive? then Buffer(call.room) else Queued(call.limit))]
  {
  }

  /** A send let in parks with its whole payload to go; an empty one is over at once. */
  lemma SendParks(s: Sys, t: TaskId, payload: seq<Byte>, env: Env)
    requires t !in s.tasks && !s.port.sendGuard && !s.port.closed
    ensures var s' := Step(s, Begin(t, Send(payload), env));
            && s'.accepted == s.accepted && s'.mock == s.mock
            && (payload == [] ==> s'.tasks == s.tasks[t := Done(Completed)] && !s'.port.sendGuard)
            && (payload != [] ==>
                  s'.tasks == s.tasks[t := AwaitWritable(s.mock.fd, Waiting, payload, 0)] && s'.port.sendGuard)
  {
  }

  /** A break is asserted exactly when the device took it; drain_exact goes to its thread. */
  lemma BreakAndThreadStart(s: Sys, t: TaskId, env: Env)
    requires t !in s.tasks && !s.port.sendGuard && !s.port.closed && !s.mock.breakAsserted
    ensures var s' := Step(s, Begin(t, SendBreak(true), env));
            && s'.mock.breakAsserted == s'.port.sendGuard == env.breakOk
            && s'.tasks == s.tasks[t := if env.breakOk then SleepBreak else Done(Raised(OsError(EOTHER)))]
    ensures var s' := Step(s, Begin(t, DrainExact, env));
            s'.port.sendGuard && s'.tasks == s.tasks[t := InDrainThread(false)]
  {
  }

  /** Resetting the input empties the queue of an open port and touches no other call. */
  lemma ResetEmpties(s: Sys, t: TaskId, env: Env)
    requires t !in s.tasks && !s.port.closed
    ensures var s' := Step(s, Begin(t, ResetInput, env));
            && s'.inbox == [] && s'.tasks == s.tasks[t := Done(Completed)]
            && s'.port == s.port && s'.mock == s.mock
  {
  }

  // ---------------------------------------------------------------------
  // Reading
  // ---------------------------------------------------------------------

  /** No read fault is armed. */
  predicate ReadsThrough(f: FaultPlan) {
    !f.raiseEioOnRead && f.parityErrors <= 0 && !f.disconnected && f.eintrReads <= 0 && f.eagainReads <= 0
  }

  /** The port's socket hands over everything there is room for. */
  predicate Generous(s: Sys, env: Env) {
    ReadsThrough(s.mock.faults) && s.mock.fd != -1 && !env.io.osError && env.io.take >= |s.inbox|
  }

  /** A task that may go on reading into a buffer, the port being open. */
  predicate ReadsNext(s: Sys, t: TaskId, size: nat) {
    t in s.tasks && s.tasks[t].AwaitReadable? && s.tasks[t].wake == Ready && s.tasks[t].want == Buffer(size)
    && !s.port.closed
  }

  /**
   What a read makes of the backend's answer: an interrupted or premature one parks again
   on the same descriptor for the same buffer, an empty one means the device is gone, any
   other error and any bytes end the call.
  */
  lemma ReadOutcome(s: Sys, t: TaskId, size: nat, env: Env)
    requires ReadsNext(s, t, size)
    ensures var s' := Step(s, Resume(t, env));
            var r := ReadResultOf(s.mock, s.inbox, size, env.io);
            && t in s'.tasks
            && (r == ReadRaised(EAGAIN) || r == ReadRaised(EINTR) ==>
                  s'.tasks[t] == AwaitReadable(s.tasks[t].fd, Waiting, Buffer(size))
                  && s'.port == s.port && s'.inbox == s.inbox)
            && (r.ReadRaised? && r.readError != EAGAIN && r.readError != EINTR ==>
                  s'.tasks[t] == Done(Raised(OsError(r.readError))) && s'.inbox == s.inbox)
            && (r == Data([]) ==> s'.tasks[t] == Done(Raised(Disconnected)) && s'.inbox == s.inbox)
            && (r.Data? && r.bytes != [] ==>
                  s'.tasks[t] == Done(Returned(r.bytes)) && s'.inbox == s.inbox[|r.bytes|..])
  {
  }

  /** With nothing in the way a receive returns what is queued, as far as it has room. */
  lemma ReceiveReturnsQueue(s: Sys, t: TaskId, size: nat, env: Env)
    requires ReadsNext(s, t, size) && 0 < size && s.inbox != [] && Generous(s, env)
    ensures var s' := Step(s, Resume(t, env));
            var n := if size < |s.inbox| then size else |s.inbox|;
            && t in s'.tasks && s'.tasks[t] == Done(Returned(s.inbox[..n]))
            && s'.inbox == s.inbox[n..]
  {
    ReadOutcome(s, t, size, env);
    assert size >= |s.inbox| ==> s.inbox[..|s.inbox|] == s.inbox;
  }

  predicate AvailableNext(s: Sys, t: TaskId, limit: Option<int>) {
    t in s.tasks && s.tasks[t].AwaitReadable? && s.tasks[t].wake == Ready && s.tasks[t].want == Queued(limit)
    && !s.port.closed
  }

  /** Whatever happens, receive_available returns no more than its limit, and keeps to it when it parks again. */
  lemma AvailableKeepsLimit(s: Sys, t: TaskId, limit: Option<int>, env: Env)
    requires AvailableNext(s, t, limit)
    ensures var s' := Step(s, Resume(t, env));
            && t in s'.tasks
            && (s'.tasks[t].Done? && s'.tasks[t].outcome.Returned? ==>
                  var bytes := s'.tasks[t].outcome.bytes;
                  limit.None? || |bytes| <= limit.value || bytes == [])
            && (s'.tasks[t].AwaitReadable? ==>
                  s'.tasks[t].want.Buffer? && (limit.None? || s'.tasks[t].want.size <= limit.value))
            && (limit.Some? && limit.value <= 0 && env.probe.Pending? ==>
                  s'.tasks[t] == Done(Returned([])) && s'.inbox == s.inbox && s'.mock == s.mock)
            && (env.probe.ProbeFailed? ==> s'.tasks[t] == Done(Raised(OsError(EOTHER))) && s'.inbox == s.inbox)
  {
  }

  /** With nothing in the way it returns all that is queued, or as much of it as the limit allows. */
  lemma AvailableReturnsQueue(s: Sys, t: TaskId, limit: Option<int>, env: Env)
    requires AvailableNext(s, t, limit) && env.probe.Pending? && Generous(s, env)
    requires 1 <= |s.inbox| <= 65536 && (limit.Some? ==> limit.value > 0)
    ensures var s' := Step(s, Resume(t, env));
            var n := if limit.Some? && limit.value < |s.inbox| then limit.value else |s.inbox|;
            && t in s'.tasks && s'.tasks[t] == Done(Returned(s.inbox[..n]))
            && s'.inbox == s.inbox[n..]
  {
    var n := if limit.Some? && limit.value < |s.inbox| then limit.value else |s.inbox|;
    assert ReadResultOf(s.mock, s.inbox, n, env.io) == Data(s.inbox[..n]);
  }

  /** With nothing queued after all, it asks for one chunk of the configured size, or the limit. */
  lemma AvailableFallsBack(s: Sys, t: TaskId, limit: Option<int>, env: Env)
    requires AvailableNext(s, t, limit) && env.probe.Pending? && s.inbox == [] && 0 < s.port.config.readChunkSize
    requires (limit.Some? ==> limit.value > 0)
    requires ReadsThrough(s.mock.faults) && s.mock.fd != -1 && !env.io.osError && !env.io.peerClosed
    ensures var s' := Step(s, Resume(t, env));
            var chunk := s.port.config.readChunkSize;
            && t in s'.tasks
            && s'.tasks[t] == AwaitReadable(s.tasks[t].fd, Waiting,
                 Buffer(if limit.Some? && limit.value < chunk then limit.value else chunk))
  {
  }

  // ---------------------------------------------------------------------
  // Writing
  // ---------------------------------------------------------------------

  predicate WritesNext(s: Sys, t: TaskId, payload: seq<Byte>, offset: nat) {
    t in s.tasks && s.tasks[t].AwaitWritable? && s.tasks[t].wake == Ready
    && s.tasks[t].payload == payload && s.tasks[t].offset == offset <= |payload| && !s.port.closed
  }

  /**
   What a write makes of the backend's answer to the rest of the payload: an interrupted or
   refused one parks again at the same offset, any other error ends the call, and an
   accepted part moves the offset by exactly that much, ending the call when it was the last.
  */
  lemma WriteOutcome(s: Sys, t: TaskId, payload: seq<Byte>, offset: nat, env: Env)
    requires WritesNext(s, t, payload, offset)
    ensures var s' := Step(s, Resume(t, env));
            var r := WriteResultOf(s.mock, |payload| - offset, env.io);
            var fd := s.tasks[t].fd;
            && t in s'.tasks
            && (r == WriteRaised(EAGAIN) || r == WriteRaised(EINTR) ==>
                  s'.tasks[t] == AwaitWritable(fd, Waiting, payload, offset) && s'.port == s.port
                  && s'.accepted == s.accepted)
            && (r.WriteRaised? && r.writeError != EAGAIN && r.writeError != EINTR ==>
                  s'.tasks[t] == Done(Raised(OsError(r.writeError))) && s'.accepted == s.accepted)
            && (r.Wrote? ==>
                  && s'.accepted == s.accepted + payload[offset..offset + r.count]
                  && s'.tasks[t] == (if offset + r.count == |payload| then Done(Completed)
                                     else AwaitWritable(fd, Waiting, payload, offset + r.count)))
  {
  }

  // ---------------------------------------------------------------------
  // drain
  // ---------------------------------------------------------------------

  /** A first step of a drain that is let in, or a step after one of its sleeps. */
  predicate DrainActs(s: Sys, a: Action, t: TaskId, env: Env) {
    || (a == Begin(t, Drain, env) && t !in s.tasks && !s.port.sendGuard)
    || (a == Resume(t, env) && t in s.tasks && s.tasks[t] == SleepDrain && s.port.sendGuard)
  }

  /** It returns exactly on an empty queue, sleeps exactly on one that is not, and raises exactly otherwise. */
  lemma DrainOutcome(s: Sys, a: Action, t: TaskId, env: Env)
    requires DrainActs(s, a, t, env)
    ensures var s' := Step(s, a);
            && t in s'.tasks
            && (s'.tasks[t] == Done(Completed)
                <==> !s.port.closed && env.probe.Pending? && env.probe.pending <= 0)
            && ((s'.tasks[t] == SleepDrain && s'.port.sendGuard)
                <==> !s.port.closed && env.probe.Pending? && env.probe.pending > 0)
            && (s'.tasks[t] == Done(Raised(PortClosed)) <==> s.port.closed)
            && (s'.tasks[t] == Done(Raised(OsError(EOTHER))) <==> !s.port.closed && env.probe.ProbeFailed?)
            && (s'.tasks[t].Done? ==> !s'.port.sendGuard)
  {
  }

  /** The action at `i` of the run is the drain's last look: the port is open and the queue empty. */
  predicate SeesEmpty(s: Sys, actions: seq<Action>, t: TaskId, i: nat) {
    && i < |actions| && Acts(actions[i]) && actions[i].task == t
    && (actions[i].Begin? || actions[i].Resume?)
    && actions[i].env.probe.Pending? && actions[i].env.probe.pending <= 0
    && !Run(s, actions[..i]).port.closed
  }

  lemma SleepingDrainMoves(s: Sys, a: Action, t: TaskId)
    requires t in s.tasks && s.tasks[t] == SleepDrain && s.port.sendGuard
    ensures var s' := Step(s, a);
            && t in s'.tasks
            && (s'.tasks[t] == SleepDrain || s'.tasks[t].Done?)
            && (s'.tasks[t] == Done(Completed) ==>
                  a.Resume? && a.task == t && a.env.probe.Pending? && a.env.probe.pending <= 0 && !s.port.closed)
  {
    if !(Acts(a) && a.task == t) {
      OtherTasksStay(s, a, t);
    } else if a.Resume? {
      DrainOutcome(s, a, t, a.env);
    }
  }

  /** A drain that returned normally, at any time later, saw an empty queue at its last look. */
  lemma {:induction false} DrainSawEmpty(s: Sys, h: Holders, env: Env, t: TaskId, more: seq<Action>) returns (i: nat)
    requires Inv(s, h) && t !in s.tasks
    ensures var s' := Run(s, [Begin(t, Drain, env)] + more);
            && t in s'.tasks && (s'.tasks[t] == SleepDrain || s'.tasks[t].Done?)
            && (s'.tasks[t] == Done(Completed) ==> SeesEmpty(s, [Begin(t, Drain, env)] + more, t, i))
    decreases |more|
  {
    var actions := [Begin(t, Drain, env)] + more;
    var front, last := actions[..|actions| - 1], actions[|actions| - 1];
    if more == [] {
      i := 0;
      assert front == [] && actions[..0] == [];
      assert Run(s, actions) == Step(s, last);
      if !s.port.sendGuard {
        DrainOutcome(s, last, t, env);
      }
    } else {
      assert front == [Begin(t, Drain, env)] + more[..|more| - 1];
      i := DrainSawEmpty(s, h, env, t, more[..|more| - 1]);
      var before := Run(s, front);
      if before.tasks[t] == SleepDrain {
        var hb := RunKeepsFrom(s, h, front);
        assert InSend(before.tasks[t]);
        SleepingDrainMoves(before, last, t);
        i := |more|;
        assert actions[..i] == front;
      } else {
        EndedTaskStays(before, last, t);
        assert i < |front| ==> front[i] == actions[i] && front[..i] == actions[..i];
      }
    }
  }

  lemma EndedTaskStays(s: Sys, a: Action, t: TaskId)
    requires t in s.tasks && s.tasks[t].Done?
    ensures t in Step(s, a).tasks && Step(s, a).tasks[t] == s.tasks[t]
  {
    if !(Acts(a) && a.task == t) {
      OtherTasksStay(s, a, t);
    }
  }

  /** The drain thread's answer is the call's. */
  lemma DrainExactEnds(s: Sys, t: TaskId, env: Env)
    requires t in s.tasks && s.tasks[t] == InDrainThread(true)
    ensures var s' := Step(s, Resume(t, env));
            && t in s'.tasks && !s'.port.sendGuard
            && s'.tasks[t] == Done(if env.probe.ProbeFailed? then Raised(OsError(EOTHER)) else Completed)
    ensures Step(s, Cancel(t)) == s
  {
  }

  // ---------------------------------------------------------------------
  // close, configure, cancellation, the selector and the locks
  // ---------------------------------------------------------------------

  /** Closing closes: the flag, the descriptor, and every wait still registered on it; a second close only ends. */
  lemma CloseCloses(s: Sys, t: TaskId, env: Env)
    requires t in s.tasks && s.tasks[t] == CloseHold
    ensures var s' := Step(s, Resume(t, env));
            && s'.port.closed && t in s'.tasks && s'.tasks[t] == Done(Completed) && s'.port.closeLock == None
            && (s.port.closed ==> s'.mock == s.mock && s'.tasks == s.tasks[t := Done(Completed)])
            && (!s.port.closed ==>
                  && s'.mock.fd == -1 && !s'.mock.isOpen && s.mock.fd !in s'.table
                  && (forall u | u in s.tasks && u != t ::
                        u in s'.tasks
                        && (WaitsOn(s.tasks[u], s.mock.fd) ==> IsWoken(s.tasks[u], s'.tasks[u]))
                        && (!WaitsOn(s.tasks[u], s.mock.fd) ==> s'.tasks[u] == s.tasks[u])))
  {
  }

  predicate WaitsOn(task: Task, fd: int) {
    (task.AwaitReadable? || task.AwaitWritable?) && task.fd == fd && task.wake == Waiting
  }

  predicate IsWoken(task: Task, woken: Task) {
    match task
    case AwaitReadable(fd, _, want) => woken == AwaitReadable(fd, Closing, want)
    case AwaitWritable(fd, _, payload, offset) => woken == AwaitWritable(fd, Closing, payload, offset)
    case _ => false
  }

  /** Configure returns exactly when the backend's call did, and then both hold the new config; a failing one leaves the port's. */
  lemma ConfigureEnds(s: Sys, t: TaskId, config: SerialConfig, env: Env)
    requires t in s.tasks && s.tasks[t] == ConfigureHold(config)
    ensures var s' := Step(s, Resume(t, env));
            && t in s'.tasks && s'.port.configureLock == None
            && (s'.tasks[t] == Done(Completed) <==> !s.port.closed && env.applied.AppliedOk?)
            && (s'.tasks[t] == Done(Raised(PortClosed)) <==> s.port.closed)
            && (s'.tasks[t] == Done(Completed) ==> s'.port.config == s'.mock.config == config)
            && (s'.tasks[t] != Done(Completed) ==> s'.port.config == s.port.config)
  {
  }

  /** A cancellation ends any call that is suspended, but for a drain thread at work, and touches no byte. */
  lemma CancelEnds(s: Sys, t: TaskId)
    requires t in s.tasks && !s.tasks[t].Done? && s.tasks[t] != InDrainThread(true)
    ensures var s' := Step(s, Cancel(t));
            && s'.tasks == s.tasks[t := Done(Raised(Cancelled))]
            && s'.inbox == s.inbox && s'.accepted == s.accepted && s'.received == s.received
            && s'.port.config == s.port.config && s'.port.closed == s.port.closed
            && (s.tasks[t].ConfigureHold? ==> s'.port.configureLock == None)
            && (s.tasks[t].CloseHold? ==> s'.port.closeLock == None)
  {
  }

  /** The selector fires a registered wait, the drain thread starts, and nothing else moves. */
  lemma FireReadies(s: Sys, t: TaskId)
    requires t in s.tasks
    ensures var s' := Step(s, Fire(t));
            && (s.tasks[t].AwaitReadable? && s.tasks[t].wake == Waiting ==>
                  s'.tasks == s.tasks[t := AwaitReadable(s.tasks[t].fd, Ready, s.tasks[t].want)])
            && (s.tasks[t].AwaitWritable? && s.tasks[t].wake == Waiting ==>
                  s'.tasks == s.tasks[t := AwaitWritable(s.tasks[t].fd, Ready, s.tasks[t].payload, s.tasks[t].offset)])
            && (s.tasks[t].InDrainThread? ==> s'.tasks == s.tasks[t := InDrainThread(true)])
            && ((s.tasks[t].AwaitReadable? || s.tasks[t].AwaitWritable?) && s.tasks[t].wake != Waiting ==> s' == s)
  {
  }

  /** A lock is taken at once when it is free, waited for when it is not, and handed on when it has become free. */
  lemma LocksAreTaken(s: Sys, t: TaskId, config: SerialConfig, env: Env)
    ensures t !in s.tasks ==>
              var s' := Step(s, Begin(t, Configure(config), env));
              if s.port.configureLock == None then
                s'.tasks == s.tasks[t := ConfigureHold(config)] && s'.port.configureLock == Some(t)
              else s'.tasks == s.tasks[t := ConfigureWait(config)] && s'.port == s.port
    ensures t !in s.tasks ==>
              var s' := Step(s, Begin(t, Aclose, env));
              if s.port.closeLock == None then
                s'.tasks == s.tasks[t := CloseHold] && s'.port.closeLock == Some(t)
              else s'.tasks == s.tasks[t := CloseWait] && s'.port == s.port
    ensures t in s.tasks && s.tasks[t] == ConfigureWait(config) ==>
              var s' := Step(s, Grant(t));
              if s.port.configureLock == None then
                s'.tasks == s.tasks[t := ConfigureHold(config)] && s'.port.configureLock == Some(t)
              else s' == s
    ensures t in s.tasks && s.tasks[t] == CloseWait ==>
              var s' := Step(s, Grant(t));
              if s.port.closeLock == None then
                s'.tasks == s.tasks[t := CloseHold] && s'.port.closeLock == Some(t)
              else s' == s
  {
  }
}
