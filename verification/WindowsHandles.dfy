/**
 The life of a WindowsBackend's handle over whole runs of open and close.

 `open` closes the handle again when configuring it fails, but not when registering it
 with the event loop or enabling the event mask fails. Those failures, and only those,
 leave a handle open that nothing will close.
*/
module WindowsHandles {
  /** Where an open ended: everything went through, or this step raised or was cancelled. */
  datatype Ended =
    | Opened
    | NoRuntime       // detect_runtime
    | NoHandle        // CreateFileW
    | NotConfigured   // SetupComm, GetCommState, SetCommState or SetCommTimeouts
    | NotRegistered   // the completion port
    | NoEventMask     // SetCommMask

  /** The backend's fields and the handles of the process. Zero is no handle. */
  datatype State = State(handle: int, isOpen: bool, handles: set<int>)

  datatype Op = Open(ended: Ended, granted: int) | Close

  predicate Late(e: Ended) {
    e.NotRegistered? || e.NoEventMask?
  }

  /** The system grants a handle that is not open; otherwise the creation failed. */
  predicate Granted(s: State, op: Op) {
    op.Open? && !s.isOpen && !op.ended.NoRuntime? && !op.ended.NoHandle? && op.granted > 0 && op.granted !in s.handles
  }

  function Step(s: State, op: Op): State {
    match op
    case Close => if s.isOpen then State(0, false, s.handles - {s.handle}) else s
    case Open(ended, granted) =>
      if !Granted(s, op) then s
      else if ended.NotConfigured? then State(0, false, s.handles)
      else State(granted, ended.Opened?, s.handles + {granted})
  }

  function Run(s: State, ops: seq<Op>): State
    decreases |ops|
  {
    if ops == [] then s else Step(Run(s, ops[..|ops| - 1]), ops[|ops| - 1])
  }

  /** The handles granted to opens that then failed late. */
  function Stranded(s: State, ops: seq<Op>): set<int>
    decreases |ops|
  {
    if ops == [] then {}
    else
      var init, op := ops[..|ops| - 1], ops[|ops| - 1];
      Stranded(s, init) + if StrandsAt(s, ops, |ops| - 1) then {op.granted} else {}
  }

  /** The i-th operation got a handle and then failed late. */
  predicate StrandsAt(s: State, ops: seq<Op>, i: nat)
    requires i < |ops|
  {
    Granted(Run(s, ops[..i]), ops[i]) && Late(ops[i].ended)
  }

  /** The process's handles are those it had, the one in use, and the stranded ones. */
  lemma {:induction false} HandlesAccounted(s: State, ops: seq<Op>)
    requires !s.isOpen
    ensures var r := Run(s, ops);
            var mine := if r.isOpen then {r.handle} else {};
            && r.handles == s.handles + mine + Stranded(s, ops)
            && mine !! s.handles + Stranded(s, ops) && s.handles !! Stranded(s, ops)
            && (r.isOpen ==> r.handle > 0)
    decreases |ops|
  {
    if ops == [] {
    } else {
      HandlesAccounted(s, ops[..|ops| - 1]);
    }
  }

  /** Once closed, the process has the handles it had exactly when no open that got one failed late. */
  lemma LeaksExactlyWhen(s: State, ops: seq<Op>)
    requires !s.isOpen && !Run(s, ops).isOpen
    ensures Run(s, ops).handles == s.handles
            <==> forall i | 0 <= i < |ops| :: !StrandsAt(s, ops, i)
  {
    HandlesAccounted(s, ops);
    StrandedExactlyWhen(s, ops);
    assert Stranded(s, ops) == {} ==> Run(s, ops).handles == s.handles;
  }

  lemma {:induction false} StrandedExactlyWhen(s: State, ops: seq<Op>)
    ensures Stranded(s, ops) == {}
            <==> forall i | 0 <= i < |ops| :: !StrandsAt(s, ops, i)
    decreases |ops|
  {
    if ops == [] {
    } else {
      var n := |ops| - 1;
      var init := ops[..n];
      StrandedExactlyWhen(s, init);
      forall i | 0 <= i < n
        ensures StrandsAt(s, init, i) <==> StrandsAt(s, ops, i)
      {
        assert init[..i] == ops[..i];
      }
      assert StrandsAt(s, ops, n) ==> ops[n].granted in Stranded(s, ops);
      assert Stranded(s, init) <= Stranded(s, ops);
    }
  }

  /** What is stranded stays: no later open or close gives the handle back. */
  lemma {:induction false} StrandedForGood(s: State, ops: seq<Op>, h: int)
    requires h in s.handles && !(s.isOpen && s.handle == h)
    ensures h in Run(s, ops).handles && !(Run(s, ops).isOpen && Run(s, ops).handle == h)
    decreases |ops|
  {
    if ops == [] {
    } else {
      StrandedForGood(s, ops[..|ops| - 1], h);
    }
  }

  /** The backend is open exactly after an open that went all the way, and closed after a close. */
  lemma OpenAndCloseTake(s: State, ended: Ended, granted: int)
    ensures var s' := Step(s, Open(ended, granted));
            && (s.isOpen ==> s' == s)
            && (!s.isOpen ==>
                  (s'.isOpen <==> ended.Opened? && granted > 0 && granted !in s.handles)
                  && (s'.isOpen ==> s'.handle == granted && granted in s'.handles))
            && (!s.isOpen && ended.NotConfigured? ==> s'.handles == s.handles)
    ensures var s' := Step(s, Close);
            !s'.isOpen && (s.isOpen ==> s'.handle == 0 && s'.handles == s.handles - {s.handle}) && (!s.isOpen ==> s' == s)
  {
  }

  // ---------------------------------------------------------------------
  // The object, updated in place
  // ---------------------------------------------------------------------

  class WindowsBackend {
    var handle: int
    var isOpen: bool
    var handles: set<int>

    function Snapshot(): State
      reads this
    {
      State(handle, isOpen, handles)
    }

    constructor (handles: set<int>)
      ensures Snapshot() == State(0, false, handles)
    {
      this.handle, this.isOpen, this.handles := 0, false, handles;
    }

    /** The call returns normally, or raises; an open backend refuses. */
    method OpenPort(ended: Ended, granted: int) returns (ok: bool)
      modifies this
      ensures Snapshot() == Step(old(Snapshot()), Open(ended, granted))
      ensures ok == (Granted(old(Snapshot()), Open(ended, granted)) && ended.Opened?)
    {
      ok := false;
      if isOpen {
        return;
      }
      if ended.NoRuntime? || ended.NoHandle? || granted <= 0 || granted in handles {
        return;
      }
      handles := handles + {granted};
      handle := granted;
      if ended.NotConfigured? {
        CloseHandle(granted);
        handle := 0;
        isOpen := false;
        return;
      }
      if ended.NotRegistered? || ended.NoEventMask? {
        return;
      }
      isOpen := true;
      ok := true;
    }

    method CloseHandle(h: int)
      modifies this`handles
      ensures handles == old(handles) - {h}
    {
      handles := handles - {h};
    }

    /** Idempotent. */
    method Aclose()
      modifies this
      ensures Snapshot() == Step(old(Snapshot()), Close)
    {
      if !isOpen {
        return;
      }
      isOpen := false;
      var h := handle;
      handle := 0;
      CloseHandle(h);
    }
  }
}
