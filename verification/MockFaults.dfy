/**
 What the fault plan of a mock backend does to the reads and writes of a run: each armed
 fault fires once, in the plan's order, and then the socket answers.
*/
module MockFaults {
  import opened Types
  import opened MockBackend

  function Armed(n: int): nat {
    if n > 0 then n else 0
  }

  /** The reads that are still to fail. */
  function ReadFaults(f: FaultPlan): nat {
    (if f.raiseEioOnRead then 1 else 0) + Armed(f.parityErrors) + Armed(f.eintrReads) + Armed(f.eagainReads)
  }

  function WriteFaults(f: FaultPlan): nat {
    Armed(f.eintrWrites) + Armed(f.eagainWrites)
  }

  /** Each failing read uses up one fault; hardware errors come first, then EINTR, then EAGAIN. */
  lemma ReadFaultFires(s: State, inbox: seq<Byte>, room: nat, io: SocketIo)
    requires !s.faults.disconnected && ReadFaults(s.faults) > 0
    ensures var r := ReadResultOf(s, inbox, room, io);
            var f := s.faults;
            && ReadFaults(AfterRead(f)) == ReadFaults(f) - 1
            && WriteFaults(AfterRead(f)) == WriteFaults(f) && AfterRead(f).shortWriteMax == f.shortWriteMax
            && !AfterRead(f).disconnected
            && (r == ReadRaised(EIO) <==> f.raiseEioOnRead || f.parityErrors > 0)
            && (r == ReadRaised(EINTR) <==> !f.raiseEioOnRead && f.parityErrors <= 0 && f.eintrReads > 0)
            && (r == ReadRaised(EAGAIN) <==> !f.raiseEioOnRead && f.parityErrors <= 0 && f.eintrReads <= 0)
  {
  }

  /** A disconnected end still fails for its hardware errors first; then every read is an end of file, and nothing is used up. */
  lemma DisconnectedReads(s: State, inbox: seq<Byte>, room: nat, io: SocketIo)
    requires s.faults.disconnected
    ensures var r := ReadResultOf(s, inbox, room, io);
            var f, f' := s.faults, AfterRead(s.faults);
            && r == (if f.raiseEioOnRead || f.parityErrors > 0 then ReadRaised(EIO) else Data([]))
            && f'.eintrReads == f.eintrReads && f'.eagainReads == f.eagainReads && f'.disconnected
            && (!f.raiseEioOnRead && f.parityErrors <= 0 ==> f' == f)
  {
  }

  /** What a socket that is closed, broken or without a peer answers once no fault is armed. */
  lemma SocketErrors(s: State, inbox: seq<Byte>, n: nat, io: SocketIo)
    requires !s.faults.disconnected && ReadFaults(s.faults) == 0 && WriteFaults(s.faults) == 0
    requires 0 < n && s.faults.shortWriteMax.None?
    ensures s.fd == -1 ==> ReadResultOf(s, inbox, n, io) == ReadRaised(EBADF)
                           && WriteResultOf(s, n, io) == WriteRaised(EBADF)
    ensures s.fd != -1 && io.osError ==> ReadResultOf(s, inbox, n, io) == ReadRaised(EOTHER)
                                         && WriteResultOf(s, n, io) == WriteRaised(EOTHER)
    ensures s.fd != -1 && !io.osError && io.peerClosed ==> WriteResultOf(s, n, io) == WriteRaised(EPIPE)
  {
  }

  /** A negative write limit holds that many bytes back at the end, a limit of zero all of them. */
  lemma NegativeLimit(s: State, length: nat, io: SocketIo)
    requires !s.faults.disconnected && WriteFaults(s.faults) == 0 && s.fd != -1 && !io.osError && !io.peerClosed
    requires s.faults.shortWriteMax.Some? && s.faults.shortWriteMax.value <= 0 && io.take >= length && 0 < length
    ensures var limit := s.faults.shortWriteMax.value;
            WriteResultOf(s, length, io)
            == Wrote(if limit == 0 || length + limit < 0 then 0 else length + limit)
  {
  }

  /** With none left the plan stays as it is and the socket answers: the front of the queue, end of file, or try again. */
  lemma ReadReachesSocket(s: State, inbox: seq<Byte>, room: nat, io: SocketIo)
    requires ReadFaults(s.faults) == 0 && s.fd != -1 && !io.osError
    ensures var r := ReadResultOf(s, inbox, room, io);
            && AfterRead(s.faults) == s.faults
            && (s.faults.disconnected ==> r == Data([]))
            && (!s.faults.disconnected && inbox == [] ==>
                  r == if io.peerClosed then Data([]) else ReadRaised(EAGAIN))
            && (!s.faults.disconnected && inbox != [] && room > 0 ==>
                  r.Data? && 0 < |r.bytes| <= room && r.bytes <= inbox
                  && (io.take >= room || io.take >= |inbox| ==> |r.bytes| == room || r.bytes == inbox))
  {
  }

  /** Each refused write uses up one fault, EINTR before EAGAIN; a disconnected end takes none. */
  lemma WriteFaultFires(s: State, length: nat, io: SocketIo)
    ensures var r := WriteResultOf(s, length, io);
            var f := s.faults;
            && (f.disconnected ==> r == WriteRaised(EPIPE) && AfterWrite(f) == f)
            && (!f.disconnected && WriteFaults(f) > 0 ==>
                  && WriteFaults(AfterWrite(f)) == WriteFaults(f) - 1
                  && ReadFaults(AfterWrite(f)) == ReadFaults(f) && AfterWrite(f).shortWriteMax == f.shortWriteMax
                  && r == WriteRaised(if f.eintrWrites > 0 then EINTR else EAGAIN))
            && (!f.disconnected && WriteFaults(f) == 0 ==> AfterWrite(f) == f)
  {
  }

  /** With none left the socket takes what it has room for, and never more than the write limit. */
  lemma WriteReachesSocket(s: State, length: nat, io: SocketIo)
    requires !s.faults.disconnected && WriteFaults(s.faults) == 0 && s.fd != -1 && !io.osError && !io.peerClosed
    ensures var r := WriteResultOf(s, length, io);
            var limit := s.faults.shortWriteMax;
            && (limit.Some? && 0 <= limit.value && r.Wrote? ==> r.count <= limit.value)
            && (0 < length && io.take > 0 && (limit.None? || 0 < limit.value) ==>
                  r.Wrote? && 0 < r.count <= length && r.count <= io.take
                  && (r.count == length || r.count == io.take || limit == Some(r.count)))
            && (0 < length && io.take == 0 && (limit.None? || 0 < limit.value) ==> r == WriteRaised(EAGAIN))
  {
  }

  function AfterReads(f: FaultPlan, n: nat): FaultPlan {
    if n == 0 then f else AfterRead(AfterReads(f, n - 1))
  }

  /** A connected end reads its socket from the read after the last armed fault on. */
  lemma {:induction false} ReadFaultsAreSpent(f: FaultPlan, n: nat)
    requires !f.disconnected
    ensures !AfterReads(f, n).disconnected
    ensures ReadFaults(AfterReads(f, n)) == if n < ReadFaults(f) then ReadFaults(f) - n else 0
  {
    if n == 0 {
    } else {
      ReadFaultsAreSpent(f, n - 1);
    }
  }
}
