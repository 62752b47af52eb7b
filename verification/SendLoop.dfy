/**
 The write loops: one send puts its whole payload on the wire, once and in order, and
 ends.

 The POSIX loop relies on readiness: when `wait_writable` returns there is room, the peer
 is connected and the socket call does not fail. Under that assumption it ends exactly
 when the fault plan lets writes through. The Windows loop relies on nothing, because it
 gives up on a write that moved no bytes.
*/
module SendLoop {
  import opened Types
  import opened MockBackend

  /** Readiness means room. */
  predicate HasRoom(io: SocketIo) {
    0 < io.take && !io.peerClosed && !io.osError
  }

  /** `None` lets whole writes through; a limit of at least 1 lets something through. */
  predicate LetsThrough(f: FaultPlan) {
    f.shortWriteMax.None? || 1 <= f.shortWriteMax.value
  }

  predicate Connected(s: State) {
    s.fd != -1 && !s.faults.disconnected
  }

  function Positive(n: int): (p: nat)
    ensures p == n || (p == 0 && n < 0)
  {
    if n > 0 then n else 0
  }

  /** Trips round the loop that are still to be spent on interrupted and refused writes. */
  function Budget(f: FaultPlan): nat {
    Positive(f.eintrWrites) + Positive(f.eagainWrites)
  }

  /** One trip round the loop with `left` bytes to go: what is left after it. */
  function LeftAfter(s: State, left: nat, io: SocketIo): (n: nat)
    ensures n <= left
  {
    var r := WriteResultOf(s, left, io);
    if r.Wrote? then left - r.count else left
  }

  /** The loop for `n` trips, the k-th of them answered by `world(k)`. */
  function Loop(s: State, left: nat, world: nat -> SocketIo, n: nat): (State, nat)
  {
    if n == 0 then (s, left)
    else
      var (s1, left1) := Loop(s, left, world, n - 1);
      if left1 == 0 then (s1, left1)
      else (s1.(faults := AfterWrite(s1.faults)), LeftAfter(s1, left1, world(n - 1)))
  }

  /** What a trip leaves alone: the loop stays connected under the same write limit. */
  lemma {:induction false} LoopKeeps(s: State, left: nat, world: nat -> SocketIo, n: nat)
    requires Connected(s)
    ensures var (s', left') := Loop(s, left, world, n);
            && Connected(s') && left' <= left
            && s'.faults.shortWriteMax == s.faults.shortWriteMax
            && Budget(s'.faults) <= Budget(s.faults)
  {
    if n == 0 {
    } else {
      LoopKeeps(s, left, world, n - 1);
    }
  }

  /** Every trip but the last uses up a byte of the payload or a unit of the budget. */
  lemma {:induction false} EachTripAdvances(s: State, left: nat, world: nat -> SocketIo, n: nat)
    requires Connected(s) && LetsThrough(s.faults)
    requires forall k | 0 <= k < n :: HasRoom(world(k))
    ensures var (s', left') := Loop(s, left, world, n);
            left' == 0 || left' + Budget(s'.faults) + n <= left + Budget(s.faults)
  {
    if n == 0 {
    } else {
      EachTripAdvances(s, left, world, n - 1);
      LoopKeeps(s, left, world, n - 1);
    }
  }

  /** A limit of zero, or below, holds the last byte back on every trip. */
  lemma {:induction false} HeldBack(s: State, left: nat, world: nat -> SocketIo, n: nat)
    requires Connected(s) && !LetsThrough(s.faults) && 0 < left
    ensures 0 < Loop(s, left, world, n).1
  {
    if n == 0 {
    } else {
      HeldBack(s, left, world, n - 1);
      LoopKeeps(s, left, world, n - 1);
    }
  }

  /** The loop ends exactly when the fault plan lets writes through; otherwise it spins for ever. */
  lemma EndsExactlyWhen(s: State, left: nat, world: nat -> SocketIo)
    requires Connected(s) && forall k: nat :: HasRoom(world(k))
    ensures (exists n: nat :: Loop(s, left, world, n).1 == 0) <==> left == 0 || LetsThrough(s.faults)
    ensures left == 0 || LetsThrough(s.faults) ==> Loop(s, left, world, left + Budget(s.faults)).1 == 0
  {
    if left == 0 {
      assert Loop(s, left, world, 0).1 == 0;
      LoopKeeps(s, left, world, left + Budget(s.faults));
    } else if LetsThrough(s.faults) {
      EachTripAdvances(s, left, world, left + Budget(s.faults));
    } else {
      forall n: nat
        ensures Loop(s, left, world, n).1 != 0
      {
        HeldBack(s, left, world, n);
      }
    }
  }

  /** A trip that has room and is let through uses up a byte or a unit of the budget. */
  lemma TripAdvances(s: State, left: nat, io: SocketIo)
    requires Connected(s) && LetsThrough(s.faults) && HasRoom(io) && 0 < left
    ensures LeftAfter(s, left, io) + Budget(AfterWrite(s.faults)) < left + Budget(s.faults)
    ensures AfterWrite(s.faults).shortWriteMax == s.faults.shortWriteMax
    ensures !AfterWrite(s.faults).disconnected
    ensures LeftAfter(s, left, io) < left ==> Budget(s.faults) == 0
    ensures Budget(AfterWrite(s.faults)) <= Budget(s.faults)
    ensures var r := WriteResultOf(s, left, io);
            r.Wrote? || r == WriteRaised(EAGAIN) || r == WriteRaised(EINTR)
  {
  }

  /** While the sender is parked the reader may take bytes; then there is room. */
  method WaitWritable(queue: Socket) returns (taken: seq<Byte>, io: SocketIo)
    modifies queue`inbox
    ensures taken + queue.inbox == old(queue.inbox)
    ensures HasRoom(io)
  {
    var n: nat :| n <= |queue.inbox|;
    taken := queue.inbox[..n];
    queue.inbox := queue.inbox[n..];
    assert HasRoom(SocketIo(1, false, false));
    io :| HasRoom(io);
  }

  /**
   `_send_view` under the send guard. At each await the reader at the other end may take
   bytes from the queue; `consumed` is what it took during the call.
  */
  method SendView(backend: Backend, view: seq<Byte>) returns (consumed: seq<Byte>)
    requires backend.sock != backend.peerSock
    requires Connected(backend.Snapshot()) && LetsThrough(backend.faults)
    modifies backend`faults, backend.peerSock`inbox
    ensures consumed + backend.peerSock.inbox == old(backend.peerSock.inbox) + view
    ensures view != [] ==> Budget(backend.faults) == 0
    ensures backend.faults.shortWriteMax == old(backend.faults.shortWriteMax)
  {
    var offset := 0;
    consumed := [];
    while offset < |view|
      invariant 0 <= offset <= |view|
      invariant consumed + backend.peerSock.inbox == old(backend.peerSock.inbox) + view[..offset]
      invariant 0 < offset ==> Budget(backend.faults) == 0
      invariant Connected(backend.Snapshot()) && LetsThrough(backend.faults)
      invariant backend.faults.shortWriteMax == old(backend.faults.shortWriteMax)
      decreases |view| - offset + Budget(backend.faults)
    {
      var taken, written := Trip(backend, view[offset..], consumed);
      Extend(old(backend.peerSock.inbox), view, offset, written);
      consumed := consumed + taken;
      offset := offset + written;
    }
  }

  /** One trip: what the reader took at the await, and what was written after it. */
  method Trip(backend: Backend, rest: seq<Byte>, ghost consumed: seq<Byte>) returns (taken: seq<Byte>, written: nat)
    requires backend.sock != backend.peerSock && rest != []
    requires Connected(backend.Snapshot()) && LetsThrough(backend.faults)
    modifies backend`faults, backend.peerSock`inbox
    ensures Connected(backend.Snapshot()) && backend.faults.shortWriteMax == old(backend.faults.shortWriteMax)
    ensures written <= |rest|
    ensures consumed + taken + backend.peerSock.inbox == consumed + old(backend.peerSock.inbox) + rest[..written]
    ensures Budget(backend.faults) <= old(Budget(backend.faults))
    ensures 0 < written ==> Budget(backend.faults) == 0
    ensures |rest| - written + Budget(backend.faults) < |rest| + old(Budget(backend.faults))
  {
    var io;
    taken, io := WaitWritable(backend.peerSock);
    ghost var queue := backend.peerSock.inbox;
    written := TryWrite(backend, rest, io);
    Regroup(consumed, taken, queue, rest[..written]);
  }

  lemma Regroup(a: seq<Byte>, b: seq<Byte>, c: seq<Byte>, d: seq<Byte>)
    ensures a + b + (c + d) == a + (b + c) + d
  {
  }

  lemma Extend(queue: seq<Byte>, view: seq<Byte>, offset: nat, n: nat)
    requires offset + n <= |view|
    ensures queue + view[..offset] + view[offset..][..n] == queue + view[..offset + n]
  {
    assert view[..offset] + view[offset..][..n] == view[..offset + n];
  }

  /** One trip: what was written, nothing when the call was interrupted or refused. */
  method TryWrite(backend: Backend, rest: seq<Byte>, io: SocketIo) returns (written: nat)
    requires backend.sock != backend.peerSock && rest != [] && HasRoom(io)
    requires Connected(backend.Snapshot()) && LetsThrough(backend.faults)
    modifies backend`faults, backend.peerSock`inbox
    ensures Connected(backend.Snapshot()) && backend.faults.shortWriteMax == old(backend.faults.shortWriteMax)
    ensures written <= |rest| && backend.peerSock.inbox == old(backend.peerSock.inbox) + rest[..written]
    ensures Budget(backend.faults) <= old(Budget(backend.faults))
    ensures 0 < written ==> Budget(backend.faults) == 0
    ensures |rest| - written + Budget(backend.faults) < |rest| + old(Budget(backend.faults))
  {
    TripAdvances(backend.Snapshot(), |rest|, io);
    var r := backend.WriteNonblocking(rest, io);
    match r
    case WriteRaised(_) =>
      written := 0;
      assert rest[..0] == [];
    case Wrote(n) =>
      written := n;
  }

  // ---------------------------------------------------------------------
  // The Windows loops
  // ---------------------------------------------------------------------

  /** What one overlapped write did: moved bytes, or completed with none, or failed. */
  datatype WriteAnswer = Moved(count: nat) | WriteFailed

  datatype ReadAnswer = Arrived(bytes: seq<Byte>) | ReadFailed

  datatype Ended = Sent | GoneSilent | Failed

  class WindowsPort {
    var wire: seq<Byte>

    constructor ()
      ensures wire == []
    {
      wire := [];
    }

    /**
     `send`: the k-th overlapped write is answered by `answers(k)`. It needs no assumption
     to end: every write but the last moved at least one byte.
    */
    method Send(data: seq<Byte>, answers: nat -> WriteAnswer) returns (ended: Ended, sent: nat, writes: nat)
      modifies this
      ensures sent <= |data| && wire == old(wire) + data[..sent]
      ensures writes <= sent + 1
      ensures ended == Sent <==> sent == |data|
      ensures forall k: nat | k < writes :: (answers(k).Moved? && 0 < answers(k).count) <==> (ended == Sent || k < writes - 1)
      ensures ended != Sent ==> 0 < writes && (ended == Failed <==> answers(writes - 1).WriteFailed?)
    {
      sent, writes := 0, 0;
      assert data[..0] == [];
      while sent < |data|
        invariant sent <= |data| && wire == old(wire) + data[..sent] && writes <= sent
        invariant forall k: nat | k < writes :: answers(k).Moved? && 0 < answers(k).count
      {
        var answer := answers(writes);
        writes := writes + 1;
        if answer.WriteFailed? {
          return Failed, sent, writes;
        }
        if answer.count <= 0 {
          return GoneSilent, sent, writes;
        }
        // The kernel accepts no more than it was offered.
        var moved := if answer.count <= |data| - sent then answer.count else |data| - sent;
        wire := wire + data[sent..sent + moved];
        assert data[..sent] + data[sent..sent + moved] == data[..sent + moved];
        sent := sent + moved;
      }
      ended := Sent;
    }
  }

  /**
   `_readinto_until_data`: reads again on an empty completion. The port is silent for
   fewer than `quiet + 1` reads; while it is silent for ever the loop goes on for ever.
  */
  method ReadIntoUntilData(buffer: array<Byte>, answers: nat -> ReadAnswer, ghost quiet: nat)
    returns (count: Option<nat>, tries: nat)
    requires answers(quiet) != Arrived([])
    requires forall k: nat :: answers(k).Arrived? ==> |answers(k).bytes| <= buffer.Length
    modifies buffer
    ensures 0 < tries <= quiet + 1
    ensures forall k: nat | k < tries - 1 :: answers(k) == Arrived([])
    ensures count.None? <==> answers(tries - 1).ReadFailed?
    ensures count.Some? ==>
              && 0 < count.value <= buffer.Length
              && buffer[..count.value] == answers(tries - 1).bytes
              && buffer[count.value..] == old(buffer[count.value..])
    ensures count.None? ==> buffer[..] == old(buffer[..])
  {
    tries := 0;
    while true
      invariant tries <= quiet
      invariant forall k: nat | k < tries :: answers(k) == Arrived([])
      invariant buffer[..] == old(buffer[..])
      decreases quiet - tries
    {
      var answer := answers(tries);
      tries := tries + 1;
      if answer.ReadFailed? {
        return None, tries;
      }
      var n := |answer.bytes|;
      if n > 0 {
        forall i | 0 <= i < n {
          buffer[i] := answer.bytes[i];
        }
        assert forall i | n <= i < buffer.Length :: buffer[i] == old(buffer[i]);
        return Some(n), tries;
      }
    }
  }
}
