/**
 Two ports joined by the socket pair: what one end's sends have accepted is what the
 other end's queue receives, whatever the tasks of both ends do in between.
*/
module PortPair {
  import opened Types
  import opened MockBackend
  import opened PortSystem
  import opened PortInvariant
  import opened PortTheorems
  import opened PortRecords

  datatype Pair = Pair(a: Sys, b: Sys)

  datatype PairAction = OnA(action: Action) | OnB(action: Action)

  /** The socket of one end knows whether the other end is closed. */
  function WithPeer(x: Action, peerClosed: bool): Action {
    match x
    case Begin(t, call, env) => Begin(t, call, env.(io := env.io.(peerClosed := peerClosed)))
    case Resume(t, env) => Resume(t, env.(io := env.io.(peerClosed := peerClosed)))
    case _ => x
  }

  function Added(before: seq<Byte>, after: seq<Byte>): seq<Byte> {
    if |before| <= |after| then after[|before|..] else []
  }

  /** Bytes reach an end only from the other end's socket. */
  function Deliveries(before: Sys, after: Sys, peer: Sys): Sys {
    Step(peer, Deliver(Added(before.accepted, after.accepted)))
  }

  function StepPair(p: Pair, x: PairAction): Pair {
    if x.action.Deliver? then p
    else
      match x
      case OnA(action) =>
        var a := Step(p.a, WithPeer(action, p.b.port.closed));
        Pair(a, Deliveries(p.a, a, p.b))
      case OnB(action) =>
        var b := Step(p.b, WithPeer(action, p.a.port.closed));
        Pair(Deliveries(p.b, b, p.a), b)
  }

  function RunPair(p: Pair, actions: seq<PairAction>): Pair
    decreases |actions|
  {
    if actions == [] then p
    else StepPair(RunPair(p, actions[..|actions| - 1]), actions[|actions| - 1])
  }

  predicate Linked(from: Sys, to: Sys) {
    to.intact ==> to.delivered == from.accepted
  }

  predicate PairInv(p: Pair, ha: Holders, hb: Holders) {
    Inv(p.a, ha) && Inv(p.b, hb) && Linked(p.a, p.b) && Linked(p.b, p.a)
  }

  /** What a step other than a delivery does to the history of deliveries: nothing. */
  predicate HistoryGrows(s: Sys, s': Sys) {
    s.accepted <= s'.accepted && s'.delivered == s.delivered && (s'.intact ==> s.intact)
  }

  lemma ReadTurnHistory(s: Sys, t: TaskId, fd: int, room: nat, io: SocketIo)
    requires t in s.tasks
    ensures HistoryGrows(s, ReadTurn(s, t, fd, room, io))
  {
  }

  lemma WriteTurnHistory(s: Sys, t: TaskId, fd: int, payload: seq<Byte>, offset: nat, io: SocketIo)
    requires t in s.tasks && offset <= |payload|
    ensures HistoryGrows(s, WriteTurn(s, t, fd, payload, offset, io))
  {
  }

  lemma DrainTurnHistory(s: Sys, t: TaskId, env: Env)
    requires t in s.tasks
    ensures HistoryGrows(s, DrainTurn(s, t, env))
  {
  }

  lemma ResumeReadHistory(s: Sys, t: TaskId, env: Env)
    requires t in s.tasks && s.tasks[t].AwaitReadable?
    ensures HistoryGrows(s, ResumeStep(s, t, env))
  {
    var AwaitReadable(fd, _, want) := s.tasks[t];
    if want.Buffer? {
      ReadTurnHistory(s, t, fd, want.size, env.io);
    } else if !env.probe.ProbeFailed? && AvailableSize(s, want.limit) > 0 {
      ReadTurnHistory(Touch(s, s.mock.fd), t, fd, AvailableSize(s, want.limit), env.io);
    }
  }

  lemma ResumeHistory(s: Sys, t: TaskId, env: Env)
    requires t in s.tasks
    ensures HistoryGrows(s, ResumeStep(s, t, env))
  {
    match s.tasks[t]
    case AwaitReadable(_, _, _) => ResumeReadHistory(s, t, env);
    case AwaitWritable(fd, _, payload, offset) =>
      if offset <= |payload| {
        WriteTurnHistory(s, t, fd, payload, offset, env.io);
      }
    case SleepDrain => DrainTurnHistory(s, t, env);
    case ConfigureHold(_) =>
    case CloseHold =>
    case _ =>
  }

  lemma BeginHistory(s: Sys, t: TaskId, call: Call, env: Env)
    requires t !in s.tasks
    ensures HistoryGrows(s, BeginStep(s, t, call, env))
  {
    if call.Drain? && !s.port.sendGuard {
      DrainTurnHistory(EnterGuarded(s, t, SleepDrain), t, env);
    }
  }

  lemma StepHistory(s: Sys, x: Action)
    requires !x.Deliver?
    ensures HistoryGrows(s, Step(s, x))
  {
    match x
    case Begin(t, call, env) => if t !in s.tasks { BeginHistory(s, t, call, env); }
    case Resume(t, env) => if t in s.tasks { ResumeHistory(s, t, env); }
    case _ =>
  }

  lemma DeliveryLinks(s: Sys, s': Sys, peer: Sys, h: Holders)
    requires Inv(peer, h)
    requires HistoryGrows(s, s') && Linked(s, peer) && Linked(peer, s)
    ensures Linked(s', Deliveries(s, s', peer)) && Linked(Deliveries(s, s', peer), s')
  {
    assert s'.accepted == s.accepted + Added(s.accepted, s'.accepted);
  }

  lemma StepPairKeeps(p: Pair, x: PairAction, ha: Holders, hb: Holders) returns (ha': Holders, hb': Holders)
    requires PairInv(p, ha, hb)
    ensures PairInv(StepPair(p, x), ha', hb')
  {
    ha', hb' := ha, hb;
    if !x.action.Deliver? {
      match x
      case OnA(action) =>
        var y := WithPeer(action, p.b.port.closed);
        var a := Step(p.a, y);
        ha' := StepKeeps(p.a, ha, y);
        DeliverKeeps(p.b, hb, Added(p.a.accepted, a.accepted));
        StepHistory(p.a, y);
        DeliveryLinks(p.a, a, p.b, hb);
      case OnB(action) =>
        var y := WithPeer(action, p.a.port.closed);
        var b := Step(p.b, y);
        hb' := StepKeeps(p.b, hb, y);
        DeliverKeeps(p.a, ha, Added(p.b.accepted, b.accepted));
        StepHistory(p.b, y);
        DeliveryLinks(p.b, b, p.a, ha);
    }
  }

  lemma {:induction false} RunPairKeeps(p: Pair, actions: seq<PairAction>) returns (ha: Holders, hb: Holders)
    requires Init(p.a) && Init(p.b)
    ensures PairInv(RunPair(p, actions), ha, hb)
    decreases |actions|
  {
    if actions == [] {
      InitHolds(p.a);
      InitHolds(p.b);
      ha, hb := Holders(None, None), Holders(None, None);
    } else {
      var front := actions[..|actions| - 1];
      var ga, gb := RunPairKeeps(p, front);
      ha, hb := StepPairKeeps(RunPair(p, front), actions[|actions| - 1], ga, gb);
    }
  }

  // ---------------------------------------------------------------------
  // Each end of a pair is a port on its own
  // ---------------------------------------------------------------------

  /** What a step of the pair is for its first end, or for its second: a step of its own, or a delivery. */
  function EndStep(p: Pair, x: PairAction, first: bool): seq<Action> {
    var (own, peer) := if first then (p.a, p.b) else (p.b, p.a);
    if x.action.Deliver? then []
    else if x.OnA? == first then [WithPeer(x.action, peer.port.closed)]
    else [Deliver(Added(peer.accepted, Step(peer, WithPeer(x.action, own.port.closed)).accepted))]
  }

  /** The run of one end that a run of the pair contains. */
  function EndRun(p: Pair, actions: seq<PairAction>, first: bool): seq<Action>
    decreases |actions|
  {
    if actions == [] then []
    else
      var front := actions[..|actions| - 1];
      EndRun(p, front, first) + EndStep(RunPair(p, front), actions[|actions| - 1], first)
  }

  lemma RunOneMore(s: Sys, actions: seq<Action>, more: seq<Action>)
    requires |more| <= 1
    ensures Run(s, actions + more) == if more == [] then Run(s, actions) else Step(Run(s, actions), more[0])
  {
    if more == [] {
      assert actions + more == actions;
    } else {
      assert (actions + more)[..|actions + more| - 1] == actions;
    }
  }

  lemma EndStepMoves(p: Pair, x: PairAction)
    ensures var q := StepPair(p, x);
            && q.a == (if EndStep(p, x, true) == [] then p.a else Step(p.a, EndStep(p, x, true)[0]))
            && q.b == (if EndStep(p, x, false) == [] then p.b else Step(p.b, EndStep(p, x, false)[0]))
  {
  }

  /** So every claim about runs of one port holds of either end of every run of a pair. */
  lemma {:induction false} EndsAreRuns(p: Pair, actions: seq<PairAction>)
    ensures RunPair(p, actions).a == Run(p.a, EndRun(p, actions, true))
    ensures RunPair(p, actions).b == Run(p.b, EndRun(p, actions, false))
    decreases |actions|
  {
    if actions == [] {
    } else {
      var front, x := actions[..|actions| - 1], actions[|actions| - 1];
      var q := RunPair(p, front);
      EndsAreRuns(p, front);
      EndStepMoves(q, x);
      RunOneMore(p.a, EndRun(p, front, true), EndStep(q, x, true));
      RunOneMore(p.b, EndRun(p, front, false), EndStep(q, x, false));
    }
  }

  // ---------------------------------------------------------------------
  // Conservation
  // ---------------------------------------------------------------------

  /**
   What holds of the stream in one direction, `returned` being the bytes that the calls at
   `to` gave their callers: no byte is lost, repeated, reordered or made up, and each
   send's part in it is told by how its call stands.
  */
  ghost predicate Conserved(from: Sys, to: Sys, returned: seq<Byte>) {
    && (to.intact ==> returned + to.inbox == Contributions(from.sends))
    && from.accepted == Contributions(from.sends)
    && RecordInv(from)
    && (forall i | 0 <= i < |from.sends| :: RecordOk(from.sends[i]))
    && (forall i | 0 <= i < |from.sends| - 1 :: from.sends[i].status != InFlight)
  }

  lemma EndRecords(s: Sys, actions: seq<Action>)
    requires Init(s)
    ensures RecordInv(Run(s, actions))
    ensures Run(s, actions).received == RunReturns(s, actions)
  {
    InitHolds(s);
    RunRecords(s, Holders(None, None), actions);
    RunLogsReturns(s, actions);
  }

  /** One direction of a pair whose ends are both consistent. */
  lemma OneWay(from: Sys, to: Sys, hf: Holders, ht: Holders, returned: seq<Byte>)
    requires Inv(from, hf) && Inv(to, ht) && Linked(from, to)
    requires RecordInv(from) && to.received == returned
    ensures Conserved(from, to, returned)
  {
  }

  /**
   Byte conservation over every interleaving of both ends, with faults and cancellations
   anywhere: until the receiving end closes or resets its input, what its receive calls
   returned to their callers followed by what is queued is, in order, what the other
   end's sends contributed. A send that returned normally contributed its whole payload,
   any other a prefix.
  */
  lemma ByteConservation(p: Pair, actions: seq<PairAction>)
    requires Init(p.a) && Init(p.b)
    ensures var q := RunPair(p, actions);
            && Conserved(q.a, q.b, RunReturns(p.b, EndRun(p, actions, false)))
            && Conserved(q.b, q.a, RunReturns(p.a, EndRun(p, actions, true)))
  {
    var ha, hb := RunPairKeeps(p, actions);
    EndsAreRuns(p, actions);
    EndRecords(p.a, EndRun(p, actions, true));
    EndRecords(p.b, EndRun(p, actions, false));
    var q := RunPair(p, actions);
    OneWay(q.a, q.b, ha, hb, RunReturns(p.b, EndRun(p, actions, false)));
    OneWay(q.b, q.a, hb, ha, RunReturns(p.a, EndRun(p, actions, true)));
  }
}
