/**
 The claims about whole runs of one port.
*/
module PortTheorems {
  import opened Types
  import opened MockBackend
  import opened PortSystem
  import opened PortInvariant

  // ---------------------------------------------------------------------
  // Guards and break
  // ---------------------------------------------------------------------

  /** In every reachable state each guard is held by exactly one task, or free and held by none. */
  lemma GuardExclusion(s0: Sys, actions: seq<Action>, t: TaskId, u: TaskId)
    requires Init(s0)
    ensures var s := Run(s0, actions);
            && (t in s.tasks && u in s.tasks && InSend(s.tasks[t]) && InSend(s.tasks[u]) ==> t == u)
            && (t in s.tasks && u in s.tasks && InReceive(s.tasks[t]) && InReceive(s.tasks[u]) ==> t == u)
            && (s.port.sendGuard <==> exists x :: x in s.tasks && InSend(s.tasks[x]))
            && (s.port.receiveGuard <==> exists x :: x in s.tasks && InReceive(s.tasks[x]))
            && (s.mock.breakAsserted <==> exists x :: x in s.tasks && s.tasks[x].SleepBreak?)
  {
    var h := RunKeeps(s0, actions);
    var s := Run(s0, actions);
    assert h.send.Some? ==> InSend(s.tasks[h.send.value]);
    assert h.receive.Some? ==> InReceive(s.tasks[h.receive.value]);
  }

  /** Which guard a call needs. */
  predicate NeedsSend(call: Call) {
    (call.Send? && call.payload != []) || call.Drain? || call.DrainExact? || (call.SendBreak? && call.durationOk)
  }

  predicate NeedsReceive(call: Call) {
    (call.Receive? && call.room > 0) || call.ReceiveAvailable?
  }

  /** A call refused because the guard is held changes nothing but its own outcome. */
  lemma RefusedChangesNothing(s: Sys, t: TaskId, call: Call, env: Env)
    requires t !in s.tasks
    requires (NeedsSend(call) && s.port.sendGuard) || (NeedsReceive(call) && s.port.receiveGuard)
    ensures Step(s, Begin(t, call, env)) == s.(tasks := s.tasks[t := Done(Raised(Busy))])
  {
  }

  /** The actions that are steps of one task. */
  predicate Acts(a: Action) {
    a.Begin? || a.Fire? || a.Grant? || a.Resume? || a.Cancel?
  }

  /**
   However a task ends, in its first step or in a later one, it holds no guard afterwards:
   a guard still taken is another task's, who had it before. A cancelled break is cleared.
  */
  lemma LeavingFreesTheGuard(s: Sys, h: Holders, a: Action)
    requires Inv(s, h) && Acts(a)
    requires a.task in Step(s, a).tasks && Step(s, a).tasks[a.task].Done?
    ensures var s' := Step(s, a);
            && (s'.port.sendGuard ==> exists u | u in s.tasks :: u != a.task && InSend(s.tasks[u]))
            && (s'.port.receiveGuard ==> exists u | u in s.tasks :: u != a.task && InReceive(s.tasks[u]))
            && (s'.mock.breakAsserted ==> exists u | u in s.tasks :: u != a.task && s.tasks[u].SleepBreak?)
    ensures a.task in s.tasks && InSend(s.tasks[a.task]) ==>
              !Step(s, a).port.sendGuard && !Step(s, a).mock.breakAsserted
    ensures a.task in s.tasks && InReceive(s.tasks[a.task]) ==> !Step(s, a).port.receiveGuard
  {
    var h' := StepKeeps(s, h, a);
    var s' := Step(s, a);
    if h'.send.Some? {
      assert InSend(s'.tasks[h'.send.value]);
      OtherTasksStay(s, a, h'.send.value);
      assert InSend(s.tasks[h'.send.value]);
    }
    if h'.receive.Some? {
      assert InReceive(s'.tasks[h'.receive.value]);
      OtherTasksStay(s, a, h'.receive.value);
      assert InReceive(s.tasks[h'.receive.value]);
    }
  }

  /**
   Of the tasks only `t` moved, neither copy of the configuration changed, and only a
   reader's turn logs bytes as received and only a writer's touches the send records.
  */
  predicate OnlyTask(s: Sys, s': Sys, t: TaskId)
    requires t in s.tasks
  {
    && t in s'.tasks && s'.tasks == s.tasks[t := s'.tasks[t]]
    && s'.mock.config == s.mock.config && s'.port.config == s.port.config
    && (s.tasks[t].AwaitReadable? || (s'.received == s.received && !Returns(s'.tasks[t])))
    && (s.tasks[t].AwaitWritable? || s'.sends == s.sends)
    && s'.applied == s.applied
  }

  predicate Returns(task: Task) {
    task.Done? && task.outcome.Returned?
  }

  lemma ReadTurnStays(s: Sys, t: TaskId, fd: int, room: nat, io: SocketIo)
    requires t in s.tasks && s.tasks[t].AwaitReadable?
    ensures OnlyTask(s, ReadTurn(s, t, fd, room, io), t)
  {
  }

  lemma WriteTurnStays(s: Sys, t: TaskId, fd: int, payload: seq<Byte>, offset: nat, io: SocketIo)
    requires t in s.tasks && s.tasks[t].AwaitWritable? && offset <= |payload|
    ensures OnlyTask(s, WriteTurn(s, t, fd, payload, offset, io), t)
  {
  }

  lemma DrainTurnStays(s: Sys, t: TaskId, env: Env)
    requires t in s.tasks && s.tasks[t].SleepDrain?
    ensures OnlyTask(s, DrainTurn(s, t, env), t)
  {
  }

  lemma ResumeReadStays(s: Sys, t: TaskId, env: Env)
    requires t in s.tasks && s.tasks[t].AwaitReadable?
    ensures OnlyTask(s, ResumeStep(s, t, env), t)
  {
    var AwaitReadable(fd, wake, want) := s.tasks[t];
    if wake != Ready || s.port.closed {
    } else if want.Buffer? {
      ReadTurnStays(s, t, fd, want.size, env.io);
    } else if !env.probe.ProbeFailed? && AvailableSize(s, want.limit) > 0 {
      var s1 := Touch(s, s.mock.fd);
      ReadTurnStays(s1, t, fd, AvailableSize(s, want.limit), env.io);
      assert ResumeStep(s, t, env) == ReadTurn(s1, t, fd, AvailableSize(s, want.limit), env.io);
    }
  }

  lemma ResumeWriteStays(s: Sys, t: TaskId, env: Env)
    requires t in s.tasks && s.tasks[t].AwaitWritable?
    ensures OnlyTask(s, ResumeStep(s, t, env), t)
  {
    var AwaitWritable(fd, _, payload, offset) := s.tasks[t];
    if offset <= |payload| {
      WriteTurnStays(s, t, fd, payload, offset, env.io);
    }
  }

  ghost predicate OthersStay(s: Sys, s': Sys, t: TaskId) {
    forall u | u != t ::
      && (u in s'.tasks <==> u in s.tasks)
      && (u in s.tasks ==> s'.tasks[u] == s.tasks[u] || s'.tasks[u] == Notified(s.tasks[u], s.mock.fd))
  }

  lemma ResumeOthersStay(s: Sys, t: TaskId, env: Env)
    requires t in s.tasks
    ensures OthersStay(s, ResumeStep(s, t, env), t)
  {
    match s.tasks[t]
    case AwaitReadable(_, _, _) => ResumeReadStays(s, t, env);
    case AwaitWritable(_, _, _, _) => ResumeWriteStays(s, t, env);
    case SleepDrain => DrainTurnStays(s, t, env);
    case _ =>
  }

  lemma BeginOthersStay(s: Sys, t: TaskId, call: Call, env: Env)
    requires t !in s.tasks
    ensures OthersStay(s, BeginStep(s, t, call, env), t)
  {
    if call.Drain? && !s.port.sendGuard {
      DrainTurnStays(EnterGuarded(s, t, SleepDrain), t, env);
    }
  }

  /** A step moves no task but its own to a different place; close only wakes the others' waits. */
  lemma OtherTasksStay(s: Sys, a: Action, t: TaskId)
    requires Acts(a) ==> t != a.task
    ensures t in Step(s, a).tasks <==> t in s.tasks
    ensures t in s.tasks ==>
              Step(s, a).tasks[t] == s.tasks[t] || Step(s, a).tasks[t] == Notified(s.tasks[t], s.mock.fd)
  {
    match a
    case Begin(u, call, env) =>
      if u !in s.tasks { BeginOthersStay(s, u, call, env); }
    case Resume(u, env) =>
      if u in s.tasks { ResumeOthersStay(s, u, env); }
    case _ =>
  }

  // ---------------------------------------------------------------------
  // Bytes
  // ---------------------------------------------------------------------

  /** What a task that ended gave its caller. */
  function Result(s: Sys, t: TaskId): seq<Byte> {
    if t in s.tasks && s.tasks[t].Done? && s.tasks[t].outcome.Returned? then s.tasks[t].outcome.bytes else []
  }

  lemma ReadTurnReturns(s: Sys, t: TaskId, fd: int, room: nat, io: SocketIo)
    requires t in s.tasks && s.tasks[t].AwaitReadable?
    ensures var s' := ReadTurn(s, t, fd, room, io);
            && s'.received == s.received + Result(s', t)
            && s'.received + s'.inbox == s.received + s.inbox
            && |Result(s', t)| <= room
  {
    var r := ReadResultOf(s.mock, s.inbox, room, io);
    if r.Data? {
      assert s.inbox == r.bytes + s.inbox[|r.bytes|..];
    }
  }

  /**
   The bytes that leave the queue in a step are exactly those the step returns to its
   caller; in particular a cancelled, refused or failed receive takes none.
  */
  lemma ReturnedIsTaken(s: Sys, a: Action)
    requires a.Resume? || a.Cancel?
    requires a.task in s.tasks && s.tasks[a.task].AwaitReadable?
    ensures var s' := Step(s, a);
            && s'.received == s.received + Result(s', a.task)
            && Result(s', a.task) + s'.inbox == s.inbox
            && (a.Cancel? ==> Result(s', a.task) == [])
  {
    var s' := Step(s, a);
    if a.Resume? && s.tasks[a.task].wake == Ready && !s.port.closed {
      var AwaitReadable(fd, _, want) := s.tasks[a.task];
      if want.Buffer? {
        ReadTurnReturns(s, a.task, fd, want.size, a.env.io);
      } else if !a.env.probe.ProbeFailed? && AvailableSize(s, want.limit) > 0 {
        ReadTurnReturns(Touch(s, s.mock.fd), a.task, fd, AvailableSize(s, want.limit), a.env.io);
      }
    }
    SameTail(s.received, Result(s', a.task), s'.inbox, s.inbox);
  }

  lemma SameTail(front: seq<Byte>, x: seq<Byte>, rest: seq<Byte>, whole: seq<Byte>)
    requires front + x + rest == front + whole
    ensures x + rest == whole
  {
    assert (front + x + rest)[|front|..] == x + rest;
    assert (front + whole)[|front|..] == whole;
  }

  /** The record of a send agrees with where its task is, or with how its call ended. */
  predicate Matches(task: Task, r: SendRecord) {
    match r.status
    case InFlight => task.AwaitWritable? && task.payload == r.payload && task.offset == r.count
    case Finished => task == Done(Completed)
    case Stopped(e) => task == Done(Raised(e))
  }

  /**
   What one step does to the send of `task`: it appends to the wire exactly the payload
   between the old and the new offset, and its record goes on telling how the call stands;
   only a record of the whole payload is finished.
  */
  predicate SendAdvances(s: Sys, s': Sys, t: TaskId, payload: seq<Byte>, offset: nat) {
    && t in s'.tasks && s.sends != [] && |s'.sends| == |s.sends|
    && s'.sends[..|s.sends| - 1] == s.sends[..|s.sends| - 1]
    && var last := s'.sends[|s.sends| - 1];
    && last.task == t && last.payload == payload
    && offset <= last.count <= |payload|
    && s'.accepted == s.accepted + payload[offset..last.count]
    && Matches(s'.tasks[t], last)
    && (last.status == Finished ==> last.count == |payload|)
  }

  lemma UnwindAdvances(s: Sys, t: TaskId, payload: seq<Byte>, offset: nat, outcome: Outcome)
    requires t in s.tasks && s.tasks[t].AwaitWritable? && offset <= |payload|
    requires s.sends != [] && s.sends[|s.sends| - 1] == SendRecord(t, payload, offset, InFlight)
    requires outcome.Raised?
    ensures SendAdvances(s, Unwind(s, t, outcome), t, payload, offset)
  {
    assert s.accepted + payload[offset..offset] == s.accepted;
  }

  lemma ParkAdvances(s: Sys, s': Sys, t: TaskId, fd: int, payload: seq<Byte>, offset: nat, wake: Wake)
    requires s.sends != [] && s.sends[|s.sends| - 1] == SendRecord(t, payload, offset, InFlight)
    requires offset <= |payload| && s'.sends == s.sends && s'.accepted == s.accepted
    requires t in s'.tasks && s'.tasks[t] == AwaitWritable(fd, wake, payload, offset)
    ensures SendAdvances(s, s', t, payload, offset)
  {
    assert s.accepted + payload[offset..offset] == s.accepted;
  }

  lemma WrittenAdvances(s: Sys, t: TaskId, fd: int, payload: seq<Byte>, offset: nat, n: nat)
    requires t in s.tasks && s.tasks[t].AwaitWritable? && offset + n <= |payload|
    requires s.sends != [] && s.sends[|s.sends| - 1] == SendRecord(t, payload, offset, InFlight)
    ensures var s2 := Accept(s, t, fd, payload, offset, n);
            SendAdvances(s, if offset + n < |payload| then Touch(s2, fd) else Unwind(s2, t, Completed), t, payload, offset)
  {
  }

  lemma WriteTurnAdvances(s: Sys, t: TaskId, fd: int, payload: seq<Byte>, offset: nat, io: SocketIo)
    requires t in s.tasks && s.tasks[t].AwaitWritable? && offset <= |payload|
    requires s.sends != [] && s.sends[|s.sends| - 1] == SendRecord(t, payload, offset, InFlight)
    ensures SendAdvances(s, WriteTurn(s, t, fd, payload, offset, io), t, payload, offset)
  {
    var r := WriteResultOf(s.mock, |payload| - offset, io);
    var s1 := WithFaults(Touch(s, s.mock.fd), AfterWrite(s.mock.faults));
    var s' := WriteTurn(s, t, fd, payload, offset, io);
    match r
    case WriteRaised(e) =>
      if e == EAGAIN || e == EINTR {
        var parked := Put(Touch(s1, fd), t, AwaitWritable(fd, Waiting, payload, offset));
        ParkAdvances(s1, parked, t, fd, payload, offset, Waiting);
        AdvancesAlike(s, s1, parked, t, payload, offset);
        assert s' == parked;
      } else {
        UnwindAdvances(s1, t, payload, offset, Raised(OsError(e)));
        AdvancesAlike(s, s1, Unwind(s1, t, Raised(OsError(e))), t, payload, offset);
        assert s' == Unwind(s1, t, Raised(OsError(e)));
      }
    case Wrote(n) =>
      var s2 := Accept(s1, t, fd, payload, offset, n);
      var after := if offset + n < |payload| then Touch(s2, fd) else Unwind(s2, t, Completed);
      WrittenAdvances(s1, t, fd, payload, offset, n);
      AdvancesAlike(s, s1, after, t, payload, offset);
      assert s' == after;
  }

  /** Only the history of sends before the step counts. */
  lemma AdvancesAlike(s: Sys, s1: Sys, s': Sys, t: TaskId, payload: seq<Byte>, offset: nat)
    requires s1.sends == s.sends && s1.accepted == s.accepted && offset <= |payload|
    requires SendAdvances(s1, s', t, payload, offset)
    ensures SendAdvances(s, s', t, payload, offset)
  {
  }

  lemma SendOutcome(s: Sys, h: Holders, a: Action)
    requires Inv(s, h)
    requires a.Resume? || a.Cancel?
    requires a.task in s.tasks && s.tasks[a.task].AwaitWritable?
    ensures SendAdvances(s, Step(s, a), a.task, s.tasks[a.task].payload, s.tasks[a.task].offset)
  {
    var AwaitWritable(fd, wake, payload, offset) := s.tasks[a.task];
    assert RecordOk(s.sends[|s.sends| - 1]);
    if a.Cancel? {
      UnwindAdvances(s, a.task, payload, offset, Raised(Cancelled));
    } else if wake == Closing {
      UnwindAdvances(s, a.task, payload, offset, Raised(ClosedResource));
    } else if wake == Ready && s.port.closed {
      UnwindAdvances(s, a.task, payload, offset, Raised(PortClosed));
    } else if wake == Ready {
      WriteTurnAdvances(s, a.task, fd, payload, offset, a.env.io);
    } else {
      ParkAdvances(s, s, a.task, fd, payload, offset, wake);
    }
  }

  // ---------------------------------------------------------------------
  // Descriptors
  // ---------------------------------------------------------------------

  /**
   In every reachable state: everything ever waited on, read, written or queried was the
   port's own descriptor at that moment, even though other code may open and close
   descriptors and reuse the number; `closed` says exactly that the descriptor was given
   up, once; and no wait is left registered afterwards.
  */
  lemma DescriptorSafety(s0: Sys, actions: seq<Action>)
    requires Init(s0)
    ensures var s := Run(s0, actions);
            && (forall i | 0 <= i < |s.touched| :: s.touched[i] == Mine)
            && (s.port.closed <==> s.mock.fd == -1) && (s.port.closed <==> !s.mock.isOpen)
            && s.closes == (if s.port.closed then 1 else 0)
            && (s.port.closed ==> forall n | n in s.table :: s.table[n] != Mine)
            && (forall t | t in s.tasks :: ParkedOk(s.port.closed, s.mock.fd, s.tasks[t]))
  {
    var h := RunKeeps(s0, actions);
  }

  /** Once the port is closed, whoever is parked in it ends with its next step, and how. */
  lemma ClosedEndsEveryWait(s0: Sys, actions: seq<Action>, t: TaskId, env: Env)
    requires Init(s0) && Run(s0, actions).port.closed && t in Run(s0, actions).tasks
    requires var task := Run(s0, actions).tasks[t];
             InReceive(task) || task.AwaitWritable? || task.SleepDrain? || task.ConfigureHold?
    ensures var s := Run(s0, actions);
            var s' := Step(s, Resume(t, env));
            t in s'.tasks
            && s'.tasks[t] == Done(Raised(
                 match s.tasks[t]
                 case AwaitReadable(_, Closing, _) => ClosedResource
                 case AwaitWritable(_, Closing, _, _) => ClosedResource
                 case _ => PortClosed))
            && s'.received == s.received && s'.accepted == s.accepted
  {
    var h := RunKeeps(s0, actions);
    var s := Run(s0, actions);
    assert ParkedOk(s.port.closed, s.mock.fd, s.tasks[t]);
  }

  // ---------------------------------------------------------------------
  // Configuration
  // ---------------------------------------------------------------------

  /** The port reports the last config that a backend.configure returning normally applied. */
  lemma ConfigIsLastApplied(s0: Sys, actions: seq<Action>)
    requires Init(s0)
    ensures var s := Run(s0, actions);
            s.applied != [] && s.port.config == s.applied[|s.applied| - 1]
  {
    var h := RunKeeps(s0, actions);
    ConfigPart(Run(s0, actions), h);
  }

  lemma ConfigPart(s: Sys, h: Holders)
    requires Inv(s, h)
    ensures s.applied != [] && s.port.config == s.applied[|s.applied| - 1]
  {
    assert ConfigInv(s);
  }

  /** No configure of this action stores a config in the backend and then fails. */
  predicate Faithful(a: Action) {
    a.Resume? && a.env.applied.ApplyFailed? ==> !a.env.applied.stored
  }

  lemma ResumeConfigureAgrees(s: Sys, t: TaskId, env: Env)
    requires s.mock.config == s.port.config && t in s.tasks && s.tasks[t].ConfigureHold?
    requires env.applied.ApplyFailed? ==> !env.applied.stored
    ensures ResumeStep(s, t, env).mock.config == ResumeStep(s, t, env).port.config
  {
  }

  lemma ResumeCloseAgrees(s: Sys, t: TaskId, env: Env)
    requires s.mock.config == s.port.config && t in s.tasks && s.tasks[t].CloseHold?
    ensures ResumeStep(s, t, env).mock.config == ResumeStep(s, t, env).port.config
  {
  }

  lemma ResumeAgrees(s: Sys, t: TaskId, env: Env)
    requires s.mock.config == s.port.config && t in s.tasks
    requires env.applied.ApplyFailed? ==> !env.applied.stored
    ensures ResumeStep(s, t, env).mock.config == ResumeStep(s, t, env).port.config
  {
    match s.tasks[t]
    case AwaitReadable(_, _, _) => ResumeReadStays(s, t, env);
    case AwaitWritable(_, _, _, _) => ResumeWriteStays(s, t, env);
    case SleepDrain => DrainTurnStays(s, t, env);
    case ConfigureHold(_) => ResumeConfigureAgrees(s, t, env);
    case CloseHold => ResumeCloseAgrees(s, t, env);
    case InDrainThread(_) =>
    case SleepBreak =>
    case _ =>
  }

  lemma BeginAgrees(s: Sys, t: TaskId, call: Call, env: Env)
    requires s.mock.config == s.port.config && t !in s.tasks
    ensures BeginStep(s, t, call, env).mock.config == BeginStep(s, t, call, env).port.config
  {
    if call.Drain? && !s.port.sendGuard {
      DrainTurnStays(EnterGuarded(s, t, SleepDrain), t, env);
    }
  }

  lemma StepAgrees(s: Sys, a: Action)
    requires s.mock.config == s.port.config && Faithful(a)
    ensures Step(s, a).mock.config == Step(s, a).port.config
  {
    match a
    case Begin(t, call, env) =>
      if t !in s.tasks { BeginAgrees(s, t, call, env); }
    case Resume(t, env) =>
      if t in s.tasks { ResumeAgrees(s, t, env); }
    case _ =>
  }

  /** Port and backend agree at every suspension point of every run of faithful actions. */
  lemma {:induction false} ConfigAgreement(s0: Sys, actions: seq<Action>)
    requires Init(s0)
    requires forall i | 0 <= i < |actions| :: Faithful(actions[i])
    ensures Run(s0, actions).mock.config == Run(s0, actions).port.config
    decreases |actions|
  {
    if actions == [] {
    } else {
      var front := actions[..|actions| - 1];
      ConfigAgreement(s0, front);
      StepAgrees(Run(s0, front), actions[|actions| - 1]);
    }
  }

  /** The one way to break agreement, exactly: a different config stored by a failing configure. */
  lemma AgreementBreaks(s: Sys, t: TaskId, env: Env)
    requires s.mock.config == s.port.config && !s.port.closed
    requires t in s.tasks && s.tasks[t].ConfigureHold?
    ensures var s' := Step(s, Resume(t, env));
            s'.mock.config == s'.port.config
            <==> (env.applied.AppliedOk? || !env.applied.stored || s.tasks[t].config == s.port.config)
  {
  }
}
