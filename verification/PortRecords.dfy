/**
 The history of one port tied to what its calls gave their callers: the bytes logged as
 received are those the calls returned, step by step over the run, and every send record
 agrees with the outcome of the task whose call it records.
*/
module PortRecords {
  import opened Types
  import opened MockBackend
  import opened PortSystem
  import opened PortInvariant
  import opened PortTheorems

  // ---------------------------------------------------------------------
  // What the calls of a run returned
  // ---------------------------------------------------------------------

  predicate HasEnded(s: Sys, t: TaskId) {
    t in s.tasks && s.tasks[t].Done?
  }

  /** The bytes that a call ending in this step returns to its caller. */
  function StepReturns(s: Sys, a: Action): seq<Byte> {
    if Acts(a) && !HasEnded(s, a.task) then Result(Step(s, a), a.task) else []
  }

  /** All bytes that calls returned during a run, in the order the calls ended. */
  function RunReturns(s: Sys, actions: seq<Action>): seq<Byte>
    decreases |actions|
  {
    if actions == [] then []
    else
      var front := actions[..|actions| - 1];
      RunReturns(s, front) + StepReturns(Run(s, front), actions[|actions| - 1])
  }

  /** A call ends once: what it gave its caller is never changed. */
  lemma EndedStays(s: Sys, a: Action, t: TaskId)
    requires HasEnded(s, t)
    ensures HasEnded(Step(s, a), t) && Step(s, a).tasks[t] == s.tasks[t]
  {
    if !(Acts(a) && a.task == t) {
      OtherTasksStay(s, a, t);
    }
  }

  lemma {:induction false} EndedForGood(s: Sys, actions: seq<Action>, t: TaskId)
    requires HasEnded(s, t)
    ensures HasEnded(Run(s, actions), t) && Run(s, actions).tasks[t] == s.tasks[t]
    decreases |actions|
  {
    if actions == [] {
    } else {
      var front := actions[..|actions| - 1];
      EndedForGood(s, front, t);
      EndedStays(Run(s, front), actions[|actions| - 1], t);
    }
  }

  /** A step ends no call but its own task's, so `StepReturns` misses nothing. */
  lemma OnlyOwnCallEnds(s: Sys, a: Action, t: TaskId)
    requires HasEnded(Step(s, a), t) && !HasEnded(s, t)
    ensures Acts(a) && a.task == t
  {
    if !(Acts(a) && a.task == t) {
      OtherTasksStay(s, a, t);
    }
  }

  lemma BeginLogs(s: Sys, t: TaskId, call: Call, env: Env)
    requires t !in s.tasks
    ensures BeginStep(s, t, call, env).received == s.received
    ensures t in BeginStep(s, t, call, env).tasks && !Returns(BeginStep(s, t, call, env).tasks[t])
  {
    if call.Drain? && !s.port.sendGuard {
      DrainTurnStays(EnterGuarded(s, t, SleepDrain), t, env);
    }
  }

  lemma ResumeLogs(s: Sys, t: TaskId, env: Env)
    requires t in s.tasks && !s.tasks[t].AwaitReadable? && !s.tasks[t].Done?
    ensures ResumeStep(s, t, env).received == s.received
    ensures t in ResumeStep(s, t, env).tasks && !Returns(ResumeStep(s, t, env).tasks[t])
  {
    match s.tasks[t]
    case AwaitWritable(_, _, _, _) => ResumeWriteStays(s, t, env);
    case SleepDrain => DrainTurnStays(s, t, env);
    case _ =>
  }

  /** What a step logs as received is what the call ending in it returns; most steps log nothing. */
  lemma StepLogsReturns(s: Sys, a: Action)
    ensures Step(s, a).received == s.received + StepReturns(s, a)
  {
    match a
    case Begin(t, call, env) =>
      if t !in s.tasks { BeginLogs(s, t, call, env); }
    case Resume(t, env) =>
      if t in s.tasks && s.tasks[t].AwaitReadable? {
        ReturnedIsTaken(s, a);
      } else if t in s.tasks && !s.tasks[t].Done? {
        ResumeLogs(s, t, env);
      }
    case Cancel(t) =>
      if t in s.tasks && s.tasks[t].AwaitReadable? { ReturnedIsTaken(s, a); }
    case _ =>
  }

  /** Over a whole run, the bytes logged are the bytes returned. */
  lemma {:induction false} RunLogsReturns(s: Sys, actions: seq<Action>)
    ensures Run(s, actions).received == s.received + RunReturns(s, actions)
    decreases |actions|
  {
    if actions == [] {
    } else {
      var front := actions[..|actions| - 1];
      RunLogsReturns(s, front);
      StepLogsReturns(Run(s, front), actions[|actions| - 1]);
    }
  }

  // ---------------------------------------------------------------------
  // Send records and their tasks
  // ---------------------------------------------------------------------

  predicate RecordMatches(s: Sys, r: SendRecord) {
    r.task in s.tasks && Matches(s.tasks[r.task], r)
  }

  /** Every record tells how its task's call stands, and no task has two. */
  ghost predicate RecordInv(s: Sys) {
    && (forall i | 0 <= i < |s.sends| :: RecordMatches(s, s.sends[i]))
    && (forall i, j | 0 <= i < j < |s.sends| :: s.sends[i].task != s.sends[j].task)
  }

  /** Records are only added, and keep naming their task and payload. */
  ghost predicate RecordsStay(s: Sys, s': Sys) {
    && |s.sends| <= |s'.sends|
    && (forall i | 0 <= i < |s.sends| ::
          s'.sends[i].task == s.sends[i].task && s'.sends[i].payload == s.sends[i].payload)
  }

  /** A step of a task that is not writing adds a record only by beginning a send. */
  lemma QuietSends(s: Sys, a: Action)
    requires Acts(a) && !(a.task in s.tasks && s.tasks[a.task].AwaitWritable?)
    ensures var s' := Step(s, a);
            || s'.sends == s.sends
            || (a.task !in s.tasks && a.task in s'.tasks && a.Begin? && a.call.Send?
                && s'.sends == s.sends + [SendRecord(a.task, a.call.payload, 0, InFlight)]
                && s'.tasks[a.task] == AwaitWritable(s.mock.fd, Waiting, a.call.payload, 0))
  {
    match a
    case Begin(t, call, env) =>
      if t !in s.tasks && call.Drain? && !s.port.sendGuard {
        DrainTurnStays(EnterGuarded(s, t, SleepDrain), t, env);
      }
    case Resume(t, env) =>
      if t in s.tasks && s.tasks[t].AwaitReadable? {
        ResumeReadStays(s, t, env);
      } else if t in s.tasks && s.tasks[t].SleepDrain? {
        DrainTurnStays(s, t, env);
      }
    case _ =>
  }

  lemma OtherRecordsMatch(s: Sys, a: Action, r: SendRecord)
    requires RecordMatches(s, r) && (Acts(a) ==> r.task != a.task)
    ensures RecordMatches(Step(s, a), r)
  {
    OtherTasksStay(s, a, r.task);
  }

  /** A task with a record that is not writing any more has ended, and stays as it is. */
  lemma SettledRecordsMatch(s: Sys, a: Action, r: SendRecord)
    requires RecordMatches(s, r)
    requires Acts(a) ==> !(a.task in s.tasks && s.tasks[a.task].AwaitWritable?)
    ensures RecordMatches(Step(s, a), r)
  {
    if Acts(a) && a.task == r.task {
      EndedStays(s, a, r.task);
    } else {
      OtherRecordsMatch(s, a, r);
    }
  }

  /** The writer's own record is the last one. */
  lemma WriterRecords(s: Sys, h: Holders, a: Action)
    requires Inv(s, h) && RecordInv(s)
    requires Acts(a) && a.task in s.tasks && s.tasks[a.task].AwaitWritable?
    ensures var s' := Step(s, a);
            && s.sends != [] && |s'.sends| == |s.sends|
            && s'.sends[..|s.sends| - 1] == s.sends[..|s.sends| - 1]
            && s.sends[|s.sends| - 1].task == s'.sends[|s.sends| - 1].task == a.task
            && s.sends[|s.sends| - 1].payload == s'.sends[|s.sends| - 1].payload
            && RecordMatches(s', s'.sends[|s.sends| - 1])
  {
    if a.Resume? || a.Cancel? {
      SendOutcome(s, h, a);
    }
  }

  /** The last record replaced by another of the same call. */
  lemma ReplacedRecord(s: Sys, s': Sys, n: nat)
    requires RecordInv(s) && |s.sends| == |s'.sends| == n + 1 && s'.sends[..n] == s.sends[..n]
    requires s'.sends[n].task == s.sends[n].task && s'.sends[n].payload == s.sends[n].payload
    requires RecordMatches(s', s'.sends[n])
    requires forall i | 0 <= i < n :: RecordMatches(s', s.sends[i])
    ensures RecordInv(s') && RecordsStay(s, s')
  {
    forall i | 0 <= i < n
      ensures s'.sends[i] == s.sends[i]
    {
      assert s'.sends[i] == s'.sends[..n][i] == s.sends[..n][i];
    }
  }

  lemma WriterStepRecords(s: Sys, h: Holders, a: Action)
    requires Inv(s, h) && RecordInv(s)
    requires Acts(a) && a.task in s.tasks && s.tasks[a.task].AwaitWritable?
    ensures RecordInv(Step(s, a)) && RecordsStay(s, Step(s, a))
  {
    WriterRecords(s, h, a);
    var n := |s.sends| - 1;
    forall i | 0 <= i < n
      ensures RecordMatches(Step(s, a), s.sends[i])
    {
      assert RecordMatches(s, s.sends[i]) && s.sends[i].task != s.sends[n].task;
      OtherRecordsMatch(s, a, s.sends[i]);
    }
    ReplacedRecord(s, Step(s, a), n);
  }

  /** Old records that still match, and at most one new one whose task is new. */
  lemma GrownRecords(s: Sys, s': Sys, t: TaskId)
    requires RecordInv(s)
    requires forall i | 0 <= i < |s.sends| :: RecordMatches(s', s.sends[i])
    requires s'.sends == s.sends
          || (t !in s.tasks && |s'.sends| == |s.sends| + 1 && s'.sends[..|s.sends|] == s.sends
              && s'.sends[|s.sends|].task == t && RecordMatches(s', s'.sends[|s.sends|]))
    ensures RecordInv(s') && RecordsStay(s, s')
  {
    forall i | 0 <= i < |s.sends|
      ensures s'.sends[i] == s.sends[i] && s.sends[i].task in s.tasks
    {
      assert RecordMatches(s, s.sends[i]);
      assert s'.sends != s.sends ==> s'.sends[..|s.sends|][i] == s'.sends[i];
    }
  }

  lemma StepRecords(s: Sys, h: Holders, a: Action)
    requires Inv(s, h) && RecordInv(s)
    ensures RecordInv(Step(s, a)) && RecordsStay(s, Step(s, a))
  {
    if Acts(a) && a.task in s.tasks && s.tasks[a.task].AwaitWritable? {
      WriterStepRecords(s, h, a);
    } else {
      forall i | 0 <= i < |s.sends|
        ensures RecordMatches(Step(s, a), s.sends[i])
      {
        assert RecordMatches(s, s.sends[i]);
        SettledRecordsMatch(s, a, s.sends[i]);
      }
      if Acts(a) {
        QuietSends(s, a);
      }
      GrownRecords(s, Step(s, a), if Acts(a) then a.task else 0);
    }
  }

  /** After every run each record agrees with its task: finished exactly when the call returned normally. */
  lemma {:induction false} RunRecords(s: Sys, h: Holders, actions: seq<Action>)
    requires Inv(s, h) && RecordInv(s)
    ensures RecordInv(Run(s, actions)) && RecordsStay(s, Run(s, actions))
    decreases |actions|
  {
    if actions == [] {
    } else {
      var front := actions[..|actions| - 1];
      RunRecords(s, h, front);
      var h1 := RunKeepsFrom(s, h, front);
      StepRecords(Run(s, front), h1, actions[|actions| - 1]);
    }
  }

  /** The record at `k` is of the call that `t` made to send `payload`, and is complete if the call is. */
  predicate Recorded(s: Sys, t: TaskId, payload: seq<Byte>, k: nat) {
    && k < |s.sends| && s.sends[k].task == t && s.sends[k].payload == payload
    && RecordMatches(s, s.sends[k])
    && s.sends[k].count <= |payload|
    && (s.tasks[t] == Done(Completed) ==> s.sends[k].count == |payload|)
  }

  lemma BeginSendOutcome(s: Sys, t: TaskId, payload: seq<Byte>, env: Env)
    requires t !in s.tasks && payload != []
    ensures var s' := Step(s, Begin(t, Send(payload), env));
            && t in s'.tasks
            && (if s'.tasks[t].Done? then s'.tasks[t].outcome.Raised? && s'.sends == s.sends
                else s'.sends == s.sends + [SendRecord(t, payload, 0, InFlight)])
  {
  }

  /**
   Every call to send something, whatever happens before and after it: either it was
   refused at once and has no part in the stream, or it has a record, which is complete
   if the call returned normally.
  */
  lemma EverySendIsRecorded(s0: Sys, before: seq<Action>, t: TaskId, payload: seq<Byte>, env: Env, after: seq<Action>)
    requires Init(s0) && t !in Run(s0, before).tasks && payload != []
    ensures var s1 := Run(s0, before);
            var s2 := Step(s1, Begin(t, Send(payload), env));
            var s3 := Run(s2, after);
            && t in s2.tasks && t in s3.tasks
            && (s2.tasks[t].Done? ==> s2.tasks[t].outcome.Raised? && s3.tasks[t] == s2.tasks[t] && s2.sends == s1.sends)
            && (!s2.tasks[t].Done? ==> Recorded(s3, t, payload, |s1.sends|))
  {
    var s1 := Run(s0, before);
    var begin := Begin(t, Send(payload), env);
    var s2 := Step(s1, begin);
    BeginSendOutcome(s1, t, payload, env);
    if s2.tasks[t].Done? {
      EndedForGood(s2, after, t);
    } else {
      InitHolds(s0);
      var h1 := RunKeepsFrom(s0, Holders(None, None), before);
      RunRecords(s0, Holders(None, None), before);
      SendStaysRecorded(s1, h1, begin, after, t, payload);
    }
  }

  lemma SendStaysRecorded(s1: Sys, h1: Holders, begin: Action, after: seq<Action>, t: TaskId, payload: seq<Byte>)
    requires Inv(s1, h1) && RecordInv(s1)
    requires Step(s1, begin).sends == s1.sends + [SendRecord(t, payload, 0, InFlight)]
    ensures Recorded(Run(Step(s1, begin), after), t, payload, |s1.sends|)
  {
    var s2 := Step(s1, begin);
    var h2 := StepKeeps(s1, h1, begin);
    StepRecords(s1, h1, begin);
    var h3 := RunKeepsFrom(s2, h2, after);
    RunRecords(s2, h2, after);
    RecordHolds(Run(s2, after), h3, t, payload, |s1.sends|);
  }

  lemma RecordHolds(s: Sys, h: Holders, t: TaskId, payload: seq<Byte>, k: nat)
    requires Inv(s, h) && RecordInv(s)
    requires k < |s.sends| && s.sends[k].task == t && s.sends[k].payload == payload
    ensures Recorded(s, t, payload, k)
  {
    assert RecordOk(s.sends[k]) && RecordMatches(s, s.sends[k]);
  }

  // ---------------------------------------------------------------------
  // Configurations and the calls that applied them
  // ---------------------------------------------------------------------

  /** The config of the configure call that returns normally in this step, if one does. */
  function StepApplies(s: Sys, a: Action): seq<SerialConfig> {
    if a.Resume? && a.task in s.tasks && s.tasks[a.task].ConfigureHold?
       && a.task in Step(s, a).tasks && Step(s, a).tasks[a.task] == Done(Completed)
    then [s.tasks[a.task].config] else []
  }

  /** The configs of all configure calls that returned normally during a run, in order. */
  function RunApplies(s: Sys, actions: seq<Action>): seq<SerialConfig>
    decreases |actions|
  {
    if actions == [] then []
    else
      var front := actions[..|actions| - 1];
      RunApplies(s, front) + StepApplies(Run(s, front), actions[|actions| - 1])
  }

  lemma ConfigureLogs(s: Sys, t: TaskId, env: Env)
    requires t in s.tasks && s.tasks[t].ConfigureHold?
    ensures Step(s, Resume(t, env)).applied == s.applied + StepApplies(s, Resume(t, env))
  {
  }

  lemma StepLogsApplied(s: Sys, a: Action)
    ensures Step(s, a).applied == s.applied + StepApplies(s, a)
  {
    match a
    case Begin(t, call, env) =>
      if t !in s.tasks && call.Drain? && !s.port.sendGuard {
        DrainTurnStays(EnterGuarded(s, t, SleepDrain), t, env);
      }
    case Resume(t, env) =>
      if t in s.tasks {
        match s.tasks[t]
        case AwaitReadable(_, _, _) => ResumeReadStays(s, t, env);
        case AwaitWritable(_, _, _, _) => ResumeWriteStays(s, t, env);
        case SleepDrain => DrainTurnStays(s, t, env);
        case ConfigureHold(_) => ConfigureLogs(s, t, env);
        case _ =>
      }
    case _ =>
  }

  lemma {:induction false} RunLogsApplied(s: Sys, actions: seq<Action>)
    ensures Run(s, actions).applied == s.applied + RunApplies(s, actions)
    decreases |actions|
  {
    if actions == [] {
    } else {
      var front := actions[..|actions| - 1];
      RunLogsApplied(s, front);
      StepLogsApplied(Run(s, front), actions[|actions| - 1]);
    }
  }

  /** The port's config is that of the last configure call that returned normally, or the opening one. */
  lemma ConfigIsLastCalls(s0: Sys, actions: seq<Action>)
    requires Init(s0)
    ensures var configs := RunApplies(s0, actions);
            Run(s0, actions).port.config == (if configs == [] then s0.port.config else configs[|configs| - 1])
  {
    RunLogsApplied(s0, actions);
    ConfigIsLastApplied(s0, actions);
  }
}
