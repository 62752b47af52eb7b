/**
 `wait_comm_event` and `_abandoned_waits`: who owns the OVERLAPPED, the mask and the
 event handle of every wait, while the kernel may still be writing.

 `Waits` holds every wait that was ever started, the process's handle table and the list
 of abandoned waits. Handle numbers are reused once closed. A run is safe when nothing
 was ever added to `mistakes`.
*/
module CommEvent {
  import opened Types

  /** Whether the kernel may still write the operation's OVERLAPPED and mask. */
  datatype Kernel = Busy | Finished

  /** Who keeps that memory alive: the suspended coroutine, `_abandoned_waits`, or nobody. */
  datatype Place = InCoroutine | Retained | Freed

  datatype Ending = Returned(mask: int) | Raised

  datatype Op = Op(event: int, kernel: Kernel, place: Place, mask: int, closes: nat, ending: Option<Ending>)

  datatype Owner = Wait(id: nat) | Other

  datatype Mistake = WroteFreedMemory | ClosedWhileBusy | ClosedNotOwn

  datatype Waits = Waits(
    ops: map<nat, Op>,
    handles: map<int, Owner>,
    abandoned: seq<nat>,
    mistakes: set<Mistake>)

  /** What `WaitCommEvent` answered. */
  datatype Issue = AtOnce(mask: int) | Failed | IoPending

  datatype Action =
    | Start(id: nat, event: int, issue: Issue)
    | Complete(id: nat, mask: int)                  // the kernel writes the mask and signals
    | Resume(id: nat)                               // the wait on the event returned
    | Interrupt(id: nat, inTime: bool, mask: int)   // cancelled, or the wait on the event failed
    | OpenOther(handle: int)
    | CloseOther(handle: int)

  // ---------------------------------------------------------------------
  // The steps
  // ---------------------------------------------------------------------

  function When(c: bool, m: Mistake): set<Mistake> {
    if c then {m} else {}
  }

  /** The kernel is done with `op`; it writes the mask wherever `op` said the mask is. */
  function Written(op: Op, mask: int): Op {
    Op(op.event, Finished, op.place, mask, op.closes, op.ending)
  }

  /** The `finally` clause of a wait that ends as `op`, with `released` true. */
  function Release(s: Waits, id: nat, op: Op, ending: Ending): Waits {
    Waits(
      s.ops[id := Op(op.event, op.kernel, Freed, op.mask, op.closes + 1, Some(ending))],
      s.handles - {op.event},
      s.abandoned,
      s.mistakes
        + When(op.kernel.Busy?, ClosedWhileBusy)
        + When(!(op.event in s.handles && s.handles[op.event] == Wait(id)), ClosedNotOwn))
  }

  /** The same clause with `released` false. */
  function Abandon(s: Waits, id: nat, op: Op): Waits {
    Waits(
      s.ops[id := Op(op.event, op.kernel, Retained, op.mask, op.closes, Some(Raised))],
      s.handles,
      s.abandoned + [id],
      s.mistakes)
  }

  /** The system gives out handles that are not open; zero is its error answer. */
  predicate Grantable(s: Waits, event: int) {
    0 < event && event !in s.handles
  }

  function StartStep(s: Waits, id: nat, event: int, issue: Issue): Waits {
    var s1 := Waits(s.ops, s.handles[event := Wait(id)], s.abandoned, s.mistakes);
    match issue
    case AtOnce(mask) => Release(s1, id, Op(event, Finished, InCoroutine, mask, 0, None), Returned(mask))
    case Failed => Release(s1, id, Op(event, Finished, InCoroutine, 0, 0, None), Raised)
    case IoPending =>
      Waits(s1.ops[id := Op(event, Busy, InCoroutine, 0, 0, None)], s1.handles, s1.abandoned, s1.mistakes)
  }

  function CompleteStep(s: Waits, id: nat, mask: int): Waits
    requires id in s.ops
  {
    var op := s.ops[id];
    if op.kernel.Finished? then s
    else Waits(s.ops[id := Written(op, mask)], s.handles, s.abandoned,
               s.mistakes + When(op.place.Freed?, WroteFreedMemory))
  }

  /** `CancelIoEx`, then a wait of at most a second for the event. */
  function InterruptStep(s: Waits, id: nat, inTime: bool, mask: int): Waits
    requires id in s.ops
  {
    var op := s.ops[id];
    if op.ending.Some? then s
    else if op.kernel.Finished? then Release(s, id, op, Raised)
    else if inTime then Release(s, id, Written(op, mask), Raised)
    else Abandon(s, id, op)
  }

  /** An action that is not enabled leaves everything alone. */
  function Step(s: Waits, a: Action): Waits {
    match a
    case Start(id, event, issue) =>
      if id in s.ops || !Grantable(s, event) then s else StartStep(s, id, event, issue)
    case Complete(id, mask) => if id in s.ops then CompleteStep(s, id, mask) else s
    case Resume(id) =>
      if id in s.ops && s.ops[id].ending.None? && s.ops[id].kernel.Finished?
      then Release(s, id, s.ops[id], Returned(s.ops[id].mask)) else s
    case Interrupt(id, inTime, mask) => if id in s.ops then InterruptStep(s, id, inTime, mask) else s
    case OpenOther(h) =>
      if Grantable(s, h) then Waits(s.ops, s.handles[h := Other], s.abandoned, s.mistakes) else s
    case CloseOther(h) =>
      if h in s.handles && s.handles[h] == Other
      then Waits(s.ops, s.handles - {h}, s.abandoned, s.mistakes) else s
  }

  function Run(s: Waits, actions: seq<Action>): Waits
    decreases |actions|
  {
    if actions == [] then s
    else Step(Run(s, actions[..|actions| - 1]), actions[|actions| - 1])
  }

  predicate Init(s: Waits) {
    s.ops == map[] && s.abandoned == [] && s.mistakes == {} && forall h | h in s.handles :: s.handles[h] == Other
  }

  // ---------------------------------------------------------------------
  // The invariant
  // ---------------------------------------------------------------------

  ghost predicate OpInv(s: Waits, id: nat, op: Op) {
    && (op.ending.None? <==> op.place.InCoroutine?)
    && (op.place.Freed? ==> op.closes == 1 && op.kernel.Finished?)
    && (!op.place.Freed? ==> op.closes == 0 && op.event in s.handles && s.handles[op.event] == Wait(id))
    && (op.place.Retained? <==> id in s.abandoned)
    && (op.ending.Some? && op.ending.value.Returned? ==>
          op.place.Freed? && op.ending.value.mask == op.mask)
  }

  /** No handle of ours is open without its wait still holding it. */
  ghost predicate HandleInv(s: Waits, h: int, o: Owner) {
    o.Wait? ==> o.id in s.ops && s.ops[o.id].event == h && !s.ops[o.id].place.Freed?
  }

  ghost predicate Inv(s: Waits) {
    && (forall id | id in s.ops :: OpInv(s, id, s.ops[id]))
    && (forall h | h in s.handles :: HandleInv(s, h, s.handles[h]))
    && (forall i | 0 <= i < |s.abandoned| :: s.abandoned[i] in s.ops)
    && (forall i, j | 0 <= i < j < |s.abandoned| :: s.abandoned[i] != s.abandoned[j])
    && s.mistakes == {}
  }

  lemma ReleaseKeeps(s: Waits, id: nat, op: Op, ending: Ending)
    requires Inv(s) && id in s.ops && s.ops[id].place.InCoroutine?
    requires op.event == s.ops[id].event && op.place.InCoroutine? && op.closes == 0 && op.kernel.Finished?
    requires ending.Returned? ==> ending.mask == op.mask
    ensures Inv(Release(s, id, op, ending))
  {
    var s' := Release(s, id, op, ending);
    forall other | other in s'.ops
      ensures OpInv(s', other, s'.ops[other])
    {
      assert OpInv(s, other, s.ops[other]);
    }
    forall h | h in s'.handles
      ensures HandleInv(s', h, s'.handles[h])
    {
      assert HandleInv(s, h, s.handles[h]);
    }
  }

  lemma AbandonKeeps(s: Waits, id: nat)
    requires Inv(s) && id in s.ops && s.ops[id].place.InCoroutine?
    ensures Inv(Abandon(s, id, s.ops[id]))
  {
    var s' := Abandon(s, id, s.ops[id]);
    assert OpInv(s, id, s.ops[id]);
    forall other | other in s'.ops
      ensures OpInv(s', other, s'.ops[other])
    {
      assert OpInv(s, other, s.ops[other]);
    }
    forall h | h in s'.handles
      ensures HandleInv(s', h, s'.handles[h])
    {
      assert HandleInv(s, h, s.handles[h]);
    }
  }

  /** A wait that starts and is not over at once. */
  lemma ParkKeeps(s: Waits, id: nat, op: Op)
    requires Inv(s) && id !in s.ops && op.event !in s.handles
    requires op.place.InCoroutine? && op.closes == 0 && op.ending.None?
    ensures Inv(Waits(s.ops[id := op], s.handles[op.event := Wait(id)], s.abandoned, s.mistakes))
  {
    var s' := Waits(s.ops[id := op], s.handles[op.event := Wait(id)], s.abandoned, s.mistakes);
    forall other | other in s'.ops
      ensures OpInv(s', other, s'.ops[other])
    {
      if other != id {
        assert OpInv(s, other, s.ops[other]);
      }
    }
    forall h | h in s'.handles
      ensures HandleInv(s', h, s'.handles[h])
    {
      if h != op.event {
        assert HandleInv(s, h, s.handles[h]);
      }
    }
  }

  lemma StartKeeps(s: Waits, id: nat, event: int, issue: Issue)
    requires Inv(s) && id !in s.ops && Grantable(s, event)
    ensures Inv(StartStep(s, id, event, issue))
  {
    var op := match issue
      case AtOnce(mask) => Op(event, Finished, InCoroutine, mask, 0, None)
      case Failed => Op(event, Finished, InCoroutine, 0, 0, None)
      case IoPending => Op(event, Busy, InCoroutine, 0, 0, None);
    ParkKeeps(s, id, op);
    if !issue.IoPending? {
      var parked := Waits(s.ops[id := op], s.handles[event := Wait(id)], s.abandoned, s.mistakes);
      var ending := if issue.AtOnce? then Returned(issue.mask) else Raised;
      ReleaseKeeps(parked, id, op, ending);
      assert StartStep(s, id, event, issue).ops == Release(parked, id, op, ending).ops;
    }
  }

  lemma CompleteKeeps(s: Waits, id: nat, mask: int)
    requires Inv(s) && id in s.ops
    ensures Inv(CompleteStep(s, id, mask))
  {
    var s' := CompleteStep(s, id, mask);
    assert OpInv(s, id, s.ops[id]);
    forall other | other in s'.ops
      ensures OpInv(s', other, s'.ops[other])
    {
      assert OpInv(s, other, s.ops[other]);
    }
    forall h | h in s'.handles
      ensures HandleInv(s', h, s'.handles[h])
    {
      assert HandleInv(s, h, s.handles[h]);
    }
  }

  /** Other parts of the process open and close handles of their own. */
  lemma OthersKeep(s: Waits, s': Waits, h: int)
    requires Inv(s) && s'.ops == s.ops && s'.abandoned == s.abandoned && s'.mistakes == s.mistakes
    requires h !in s.handles || s.handles[h] == Other
    requires h in s'.handles ==> s'.handles[h] == Other
    requires s'.handles - {h} == s.handles - {h}
    ensures Inv(s')
  {
    forall g | g != h
      ensures g in s'.handles <==> g in s.handles
      ensures g in s.handles ==> s'.handles[g] == s.handles[g]
    {
      assert g in s.handles <==> g in s.handles - {h};
      assert g in s'.handles <==> g in s'.handles - {h};
      if g in s.handles {
        assert (s'.handles - {h})[g] == (s.handles - {h})[g];
      }
    }
    forall id | id in s'.ops
      ensures OpInv(s', id, s'.ops[id])
    {
      assert OpInv(s, id, s.ops[id]);
    }
    forall g | g in s'.handles
      ensures HandleInv(s', g, s'.handles[g])
    {
      if g != h {
        assert HandleInv(s, g, s.handles[g]);
      }
    }
  }

  lemma StepKeeps(s: Waits, a: Action)
    requires Inv(s)
    ensures Inv(Step(s, a))
  {
    match a
    case Start(id, event, issue) =>
      if id !in s.ops && Grantable(s, event) {
        StartKeeps(s, id, event, issue);
      }
    case Complete(id, mask) =>
      if id in s.ops {
        CompleteKeeps(s, id, mask);
      }
    case Resume(id) =>
      if id in s.ops && s.ops[id].ending.None? && s.ops[id].kernel.Finished? {
        assert OpInv(s, id, s.ops[id]);
        ReleaseKeeps(s, id, s.ops[id], Returned(s.ops[id].mask));
      }
    case Interrupt(id, inTime, mask) =>
      if id in s.ops && s.ops[id].ending.None? {
        assert OpInv(s, id, s.ops[id]);
        if s.ops[id].kernel.Finished? {
          ReleaseKeeps(s, id, s.ops[id], Raised);
        } else if inTime {
          ReleaseKeeps(s, id, Written(s.ops[id], mask), Raised);
        } else {
          AbandonKeeps(s, id);
        }
      }
    case OpenOther(h) =>
      if Grantable(s, h) {
        OthersKeep(s, Step(s, a), h);
      }
    case CloseOther(h) =>
      if h in s.handles && s.handles[h] == Other {
        OthersKeep(s, Step(s, a), h);
      }
  }

  lemma {:induction false} RunKeeps(s: Waits, actions: seq<Action>)
    requires Inv(s)
    ensures Inv(Run(s, actions))
    decreases |actions|
  {
    if actions == [] {
    } else {
      RunKeeps(s, actions[..|actions| - 1]);
      StepKeeps(Run(s, actions[..|actions| - 1]), actions[|actions| - 1]);
    }
  }

  // ---------------------------------------------------------------------
  // What every run promises
  // ---------------------------------------------------------------------

  /** While the kernel may write an operation's memory, somebody keeps that memory alive. */
  lemma {:induction false} BusyIsHeld(s0: Waits, actions: seq<Action>, id: nat)
    requires Init(s0) && id in Run(s0, actions).ops
    ensures var s := Run(s0, actions);
            s.ops[id].kernel.Busy? ==> s.ops[id].place.InCoroutine? || id in s.abandoned
  {
    RunKeeps(s0, actions);
    assert OpInv(Run(s0, actions), id, Run(s0, actions).ops[id]);
  }

  /** The kernel never wrote freed memory; no handle was closed early, twice, or that was not ours. */
  lemma NoMistakes(s0: Waits, actions: seq<Action>)
    requires Init(s0)
    ensures Run(s0, actions).mistakes == {}
    ensures forall id | id in Run(s0, actions).ops :: Run(s0, actions).ops[id].closes <= 1
  {
    RunKeeps(s0, actions);
    forall id | id in Run(s0, actions).ops
      ensures Run(s0, actions).ops[id].closes <= 1
    {
      assert OpInv(Run(s0, actions), id, Run(s0, actions).ops[id]);
    }
  }

  /** A wait that has ended left its handle either closed, once, or open and on the list. */
  lemma HandleFate(s0: Waits, actions: seq<Action>, id: nat)
    requires Init(s0) && id in Run(s0, actions).ops && Run(s0, actions).ops[id].ending.Some?
    ensures var s := Run(s0, actions);
            var op := s.ops[id];
            var open := op.event in s.handles && s.handles[op.event] == Wait(id);
            && (id !in s.abandoned ==> op.closes == 1 && !open)
            && (id in s.abandoned ==> op.closes == 0 && open && op.ending == Some(Raised))
  {
    RunKeeps(s0, actions);
    FateOf(Run(s0, actions), id);
  }

  lemma FateOf(s: Waits, id: nat)
    requires Inv(s) && id in s.ops && s.ops[id].ending.Some?
    ensures var op := s.ops[id];
            var open := op.event in s.handles && s.handles[op.event] == Wait(id);
            && (id !in s.abandoned ==> op.closes == 1 && !open)
            && (id in s.abandoned ==> op.closes == 0 && open && op.ending == Some(Raised))
  {
    assert OpInv(s, id, s.ops[id]);
    if s.ops[id].event in s.handles {
      assert HandleInv(s, s.ops[id].event, s.handles[s.ops[id].event]);
    }
  }

  /** Open handles of ours and waits that still hold theirs are one and the same. */
  lemma {:induction false} NoLeak(s0: Waits, actions: seq<Action>, h: int)
    requires Init(s0) && h in Run(s0, actions).handles && Run(s0, actions).handles[h].Wait?
    ensures var s := Run(s0, actions);
            var id := s.handles[h].id;
            id in s.ops && s.ops[id].event == h && (s.ops[id].ending.None? || id in s.abandoned)
  {
    RunKeeps(s0, actions);
    var s := Run(s0, actions);
    assert HandleInv(s, h, s.handles[h]);
    assert OpInv(s, s.handles[h].id, s.ops[s.handles[h].id]);
  }

  lemma {:induction false} RunSplits(s: Waits, first: seq<Action>, rest: seq<Action>)
    ensures Run(s, first + rest) == Run(Run(s, first), rest)
    decreases |rest|
  {
    if rest == [] {
      assert first + rest == first;
    } else {
      var init := rest[..|rest| - 1];
      RunSplits(s, first, init);
      assert (first + rest)[..|first + rest| - 1] == first + init;
    }
  }

  lemma AbandonedGrows(s: Waits, a: Action)
    ensures s.abandoned <= Step(s, a).abandoned
  {
  }

  /** What is on the list is out of reach of CloseHandle. */
  lemma AbandonedIsUnclosed(s: Waits, id: nat)
    requires Inv(s) && id in s.abandoned
    ensures id in s.ops && s.ops[id].closes == 0
  {
    assert id in s.ops;
    assert OpInv(s, id, s.ops[id]);
  }

  /** Whatever happens next, what was abandoned stays on the list and is never closed. */
  lemma {:induction false} AbandonedForGood(s: Waits, actions: seq<Action>, id: nat)
    requires Inv(s) && id in s.abandoned
    ensures s.abandoned <= Run(s, actions).abandoned
    ensures id in Run(s, actions).ops && Run(s, actions).ops[id].closes == 0
    decreases |actions|
  {
    if actions == [] {
    } else {
      var init := actions[..|actions| - 1];
      AbandonedForGood(s, init, id);
      AbandonedGrows(Run(s, init), actions[|actions| - 1]);
    }
    RunKeeps(s, actions);
    assert id in Run(s, actions).abandoned;
    AbandonedIsUnclosed(Run(s, actions), id);
  }

  /** A wait is abandoned exactly when it is interrupted before the kernel is done, and not in time. */
  lemma AbandonedExactlyWhen(s: Waits, a: Action, id: nat)
    requires Inv(s) && id !in s.abandoned
    ensures id in Step(s, a).abandoned <==>
              && a.Interrupt? && a.id == id && !a.inTime
              && id in s.ops && s.ops[id].ending.None? && s.ops[id].kernel.Busy?
  {
  }

  // ---------------------------------------------------------------------
  // How each wait goes
  // ---------------------------------------------------------------------

  /** An event that is there at once is returned, a refusal raised, and both close the handle; otherwise the wait parks. */
  lemma WaitStarts(s: Waits, id: nat, event: int, issue: Issue)
    requires id !in s.ops && Grantable(s, event)
    ensures var s' := Step(s, Start(id, event, issue));
            && id in s'.ops && s'.ops[id].event == event && s'.abandoned == s.abandoned
            && (issue.AtOnce? ==> s'.ops[id].ending == Some(Returned(issue.mask)) && event !in s'.handles
                                  && s'.ops[id].closes == 1)
            && (issue.Failed? ==> s'.ops[id].ending == Some(Raised) && event !in s'.handles && s'.ops[id].closes == 1)
            && (issue.IoPending? ==> s'.ops[id] == Op(event, Busy, InCoroutine, 0, 0, None)
                                     && s'.handles == s.handles[event := Wait(id)])
  {
  }

  /** The kernel's mask is written once, and is what the wait returns. */
  lemma WaitReturnsMask(s: Waits, id: nat, mask: int)
    requires id in s.ops && s.ops[id].ending.None? && s.ops[id].kernel.Busy?
    ensures var done := Step(s, Complete(id, mask));
            var s' := Step(done, Resume(id));
            && id in s'.ops && s'.ops[id].ending == Some(Returned(mask)) && s'.ops[id].place.Freed?
            && s'.ops[id].event !in s'.handles && s'.abandoned == s.abandoned
    ensures Step(s, Resume(id)) == s
  {
  }

  /** An interrupted wait raises, and is released unless the kernel is not done in time. */
  lemma WaitInterrupted(s: Waits, id: nat, inTime: bool, mask: int)
    requires id in s.ops && s.ops[id].ending.None?
    ensures var s' := Step(s, Interrupt(id, inTime, mask));
            && id in s'.ops && s'.ops[id].ending == Some(Raised)
            && (if s.ops[id].kernel.Busy? && !inTime
                then s'.ops[id].place.Retained? && s'.abandoned == s.abandoned + [id] && s'.handles == s.handles
                else s'.ops[id].place.Freed? && s'.abandoned == s.abandoned
                     && s'.handles == s.handles - {s.ops[id].event})
  {
  }

  // ---------------------------------------------------------------------
  // The module-level list, updated in place
  // ---------------------------------------------------------------------

  /** The process: the waits under way, its handle table, and `_abandoned_waits`. */
  class Process {
    var ops: map<nat, Op>
    var handles: map<int, Owner>
    var abandonedWaits: seq<nat>
    ghost var mistakes: set<Mistake>

    ghost function Snapshot(): Waits
      reads this
    {
      Waits(ops, handles, abandonedWaits, mistakes)
    }

    constructor ()
      ensures Init(Snapshot())
    {
      ops, handles, abandonedWaits, mistakes := map[], map[], [], {};
    }

    method CloseHandle(id: nat)
      requires id in ops
      modifies this`handles, this`mistakes
      ensures handles == old(handles) - {ops[id].event}
      ensures mistakes == old(mistakes)
                + When(ops[id].kernel.Busy?, ClosedWhileBusy)
                + When(!(ops[id].event in old(handles) && old(handles)[ops[id].event] == Wait(id)), ClosedNotOwn)
    {
      var event := ops[id].event;
      mistakes := mistakes
        + When(ops[id].kernel.Busy?, ClosedWhileBusy)
        + When(!(event in handles && handles[event] == Wait(id)), ClosedNotOwn);
      handles := handles - {event};
    }

    /** The `finally` clause. */
    method Finally(id: nat, released: bool, ending: Ending)
      requires id in ops && (released || ending == Raised)
      modifies this
      ensures Snapshot() == if released then Release(old(Snapshot()), id, old(ops)[id], ending)
                            else Abandon(old(Snapshot()), id, old(ops)[id])
    {
      var op := ops[id];
      if released {
        CloseHandle(id);
        ops := ops[id := Op(op.event, op.kernel, Freed, op.mask, op.closes + 1, Some(ending))];
      } else {
        abandonedWaits := abandonedWaits + [id];
        ops := ops[id := Op(op.event, op.kernel, Retained, op.mask, op.closes, Some(ending))];
      }
    }

    /** From `CreateEventW` to the first await, or to the end. */
    method BeginWait(id: nat, event: int, issue: Issue) returns (created: bool)
      requires id !in ops && (event == 0 || Grantable(Snapshot(), event))
      modifies this
      ensures created == (event != 0)
      ensures Snapshot() == Step(old(Snapshot()), Start(id, event, issue))
    {
      created := event != 0;
      if !created {
        return;
      }
      handles := handles[event := Wait(id)];
      match issue
      case AtOnce(mask) =>
        ops := ops[id := Op(event, Finished, InCoroutine, mask, 0, None)];
        Finally(id, true, Returned(mask));
      case Failed =>
        ops := ops[id := Op(event, Finished, InCoroutine, 0, 0, None)];
        Finally(id, true, Raised);
      case IoPending =>
        ops := ops[id := Op(event, Busy, InCoroutine, 0, 0, None)];
    }

    /** The wait on the event returned, which it does once the kernel has signalled it. */
    method ResumeWait(id: nat) returns (mask: int)
      requires id in ops && ops[id].ending.None? && ops[id].kernel.Finished?
      modifies this
      ensures mask == old(ops)[id].mask
      ensures Snapshot() == Step(old(Snapshot()), Resume(id))
    {
      mask := ops[id].mask;
      Finally(id, true, Returned(mask));
    }

    /** The wait on the event was cancelled or failed. */
    method InterruptWait(id: nat, inTime: bool, mask: int)
      requires id in ops && ops[id].ending.None?
      modifies this
      ensures Snapshot() == Step(old(Snapshot()), Interrupt(id, inTime, mask))
    {
      var released := ops[id].kernel.Finished? || inTime;
      if !ops[id].kernel.Finished? && inTime {
        ops := ops[id := Written(ops[id], mask)];
      }
      Finally(id, released, Raised);
    }
  }
}
