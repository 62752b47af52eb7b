/**
 The in-memory loopback backend: two sockets, a fault plan, and a break flag.

 `State` is the value of one backend; `Read` and `Write` say what one non-blocking
 call does to it. The class `Backend` is the same object updated in place, and each of
 its methods is proved to do exactly what the function on values says.
*/
module MockBackend {
  import opened Types

  /** Every counter is active while positive; the flags stay until a test clears them. */
  datatype FaultPlan = FaultPlan(
    eagainReads: int,
    eagainWrites: int,
    eintrReads: int,
    eintrWrites: int,
    shortWriteMax: Option<int>,
    disconnected: bool,
    raiseEioOnRead: bool,
    parityErrors: int)

  const NO_FAULTS := FaultPlan(0, 0, 0, 0, None, false, false, 0)

  datatype Errno = EIO | EINTR | EAGAIN | EPIPE | EBADF | EOTHER

  datatype ReadResult = Data(bytes: seq<Byte>) | ReadRaised(readError: Errno)

  datatype WriteResult = Wrote(count: nat) | WriteRaised(writeError: Errno)

  /** One backend. `fd` is the descriptor number of its socket, -1 once closed. */
  datatype State = State(
    isOpen: bool,
    fd: int,
    config: SerialConfig,
    faults: FaultPlan,
    breakAsserted: bool)

  /**
   What the socket does on one call, chosen by the environment: how many bytes a
   transfer moves (`take`; zero on a write means the peer's queue is full), whether the
   other end is gone, and whether the call fails outright.
  */
  datatype SocketIo = SocketIo(take: nat, peerClosed: bool, osError: bool)

  /** The bytes of `data[:limit]` as Python slices: a negative limit counts from the end. */
  function SliceLength(length: nat, limit: int): (n: nat)
    ensures n <= length
    ensures 0 <= limit ==> n <= limit
  {
    if limit < 0 then (if length + limit < 0 then 0 else length + limit)
    else if limit < length then limit else length
  }

  /** A stream transfer moves at least one byte and at most `most`. */
  function Transfer(take: nat, most: nat): (n: nat)
    requires 0 < most
    ensures 0 < n <= most
  {
    if take == 0 then 1 else if take <= most then take else most
  }

  // ---------------------------------------------------------------------
  // One call on values
  // ---------------------------------------------------------------------

  function Recv(fd: int, inbox: seq<Byte>, room: nat, io: SocketIo): (r: ReadResult)
    ensures r.Data? ==> r.bytes <= inbox && |r.bytes| <= room
  {
    if fd == -1 then ReadRaised(EBADF)
    else if io.osError then ReadRaised(EOTHER)
    else if inbox == [] then (if io.peerClosed then Data([]) else ReadRaised(EAGAIN))
    else if room == 0 then Data([])
    else Data(inbox[..Transfer(io.take, if room < |inbox| then room else |inbox|)])
  }

  function ReadResultOf(s: State, inbox: seq<Byte>, room: nat, io: SocketIo): (r: ReadResult)
    ensures r.Data? ==> r.bytes <= inbox && |r.bytes| <= room
  {
    var f := s.faults;
    if f.raiseEioOnRead then ReadRaised(EIO)
    else if f.parityErrors > 0 then ReadRaised(EIO)
    else if f.disconnected then Data([])
    else if f.eintrReads > 0 then ReadRaised(EINTR)
    else if f.eagainReads > 0 then ReadRaised(EAGAIN)
    else Recv(s.fd, inbox, room, io)
  }

  function AfterRead(f: FaultPlan): FaultPlan {
    if f.raiseEioOnRead then f.(raiseEioOnRead := false)
    else if f.parityErrors > 0 then f.(parityErrors := f.parityErrors - 1)
    else if f.disconnected then f
    else if f.eintrReads > 0 then f.(eintrReads := f.eintrReads - 1)
    else if f.eagainReads > 0 then f.(eagainReads := f.eagainReads - 1)
    else f
  }

  /** `data[:short_write_max]`, the part of a write the fault plan lets through. */
  function Offered(f: FaultPlan, length: nat): (n: nat)
    ensures n <= length
  {
    if f.shortWriteMax.Some? then SliceLength(length, f.shortWriteMax.value) else length
  }

  function SendTo(fd: int, length: nat, io: SocketIo): (r: WriteResult)
    requires 0 < length
    ensures r.Wrote? ==> 0 < r.count <= length
  {
    if fd == -1 then WriteRaised(EBADF)
    else if io.osError then WriteRaised(EOTHER)
    else if io.peerClosed then WriteRaised(EPIPE)
    else if io.take == 0 then WriteRaised(EAGAIN)
    else Wrote(if io.take <= length then io.take else length)
  }

  function WriteResultOf(s: State, length: nat, io: SocketIo): (r: WriteResult)
    ensures r.Wrote? ==> r.count <= length
  {
    var f := s.faults;
    if f.disconnected then WriteRaised(EPIPE)
    else if f.eintrWrites > 0 then WriteRaised(EINTR)
    else if f.eagainWrites > 0 then WriteRaised(EAGAIN)
    else if Offered(f, length) == 0 then Wrote(0)
    else SendTo(s.fd, Offered(f, length), io)
  }

  function AfterWrite(f: FaultPlan): FaultPlan {
    if f.disconnected then f
    else if f.eintrWrites > 0 then f.(eintrWrites := f.eintrWrites - 1)
    else if f.eagainWrites > 0 then f.(eagainWrites := f.eagainWrites - 1)
    else f
  }

  // ---------------------------------------------------------------------
  // The objects
  // ---------------------------------------------------------------------

  /** One end of the socket pair: its descriptor and the bytes waiting to be read from it. */
  class Socket {
    var fd: int
    var inbox: seq<Byte>

    constructor (fd: int)
      requires 0 <= fd
      ensures this.fd == fd && inbox == []
    {
      this.fd := fd;
      inbox := [];
    }

    /** `recv_into`: move bytes from the queue to the front of `buffer`. */
    method RecvInto(buffer: array<Byte>, io: SocketIo) returns (r: ReadResult)
      modifies this`inbox, buffer
      ensures r == Recv(fd, old(inbox), buffer.Length, io)
      ensures inbox == if r.Data? then old(inbox)[|r.bytes|..] else old(inbox)
      ensures buffer[..] == if r.Data? then r.bytes + old(buffer[..])[|r.bytes|..] else old(buffer[..])
    {
      r := Recv(fd, inbox, buffer.Length, io);
      if r.Data? {
        forall i | 0 <= i < |r.bytes| {
          buffer[i] := r.bytes[i];
        }
        inbox := inbox[|r.bytes|..];
      }
    }

    /** `send`: append the accepted front of `data` to the peer's queue. */
    method Send(data: seq<Byte>, peer: Socket, io: SocketIo) returns (r: WriteResult)
      requires 0 < |data|
      modifies peer`inbox
      ensures r == SendTo(fd, |data|, io)
      ensures peer.inbox == if r.Wrote? then old(peer.inbox) + data[..r.count] else old(peer.inbox)
    {
      r := SendTo(fd, |data|, io);
      if r.Wrote? {
        peer.inbox := peer.inbox + data[..r.count];
      }
    }
  }

  class Backend {
    var isOpen: bool
    var config: SerialConfig
    var faults: FaultPlan
    var breakAsserted: bool
    const sock: Socket
    const peerSock: Socket

    function Snapshot(): State
      reads this, sock
    {
      State(isOpen, sock.fd, config, faults, breakAsserted)
    }

    constructor (sock: Socket, peerSock: Socket, config: SerialConfig)
      ensures this.sock == sock && this.peerSock == peerSock
      ensures Snapshot() == State(false, sock.fd, config, NO_FAULTS, false)
    {
      this.sock, this.peerSock, this.config := sock, peerSock, config;
      isOpen, faults, breakAsserted := false, NO_FAULTS, false;
    }

    /** Refused on an open backend, which then keeps everything it had. */
    method Open(config: SerialConfig) returns (ok: bool)
      modifies this
      ensures ok == !old(isOpen)
      ensures Snapshot() == if ok then old(Snapshot()).(isOpen := true, config := config) else old(Snapshot())
    {
      ok := !isOpen;
      if ok {
        this.config := config;
        isOpen := true;
      }
    }

    /** Idempotent; always tears the socket down, whether or not `Open` was called. */
    method Close() returns (closedFd: bool)
      modifies this, sock
      ensures closedFd == (old(sock.fd) != -1)
      ensures Snapshot() == old(Snapshot()).(isOpen := false, fd := -1)
      ensures sock.inbox == old(sock.inbox)
    {
      isOpen := false;
      closedFd := sock.fd != -1;
      if closedFd {
        sock.fd := -1;
      }
    }

    /** The faults fire in the order the plan lists them; only then is the socket read. */
    method ReadNonblocking(buffer: array<Byte>, io: SocketIo) returns (r: ReadResult)
      modifies this`faults, sock`inbox, buffer
      ensures r == ReadResultOf(old(Snapshot()), old(sock.inbox), buffer.Length, io)
      ensures Snapshot() == old(Snapshot()).(faults := AfterRead(old(faults)))
      ensures sock.inbox == if r.Data? then old(sock.inbox)[|r.bytes|..] else old(sock.inbox)
      ensures buffer[..] == if r.Data? then r.bytes + old(buffer[..])[|r.bytes|..] else old(buffer[..])
    {
      if faults.raiseEioOnRead {
        faults := faults.(raiseEioOnRead := false);
        return ReadRaised(EIO);
      }
      if faults.parityErrors > 0 {
        faults := faults.(parityErrors := faults.parityErrors - 1);
        return ReadRaised(EIO);
      }
      if faults.disconnected {
        return Data([]);
      }
      if faults.eintrReads > 0 {
        faults := faults.(eintrReads := faults.eintrReads - 1);
        return ReadRaised(EINTR);
      }
      if faults.eagainReads > 0 {
        faults := faults.(eagainReads := faults.eagainReads - 1);
        return ReadRaised(EAGAIN);
      }
      r := sock.RecvInto(buffer, io);
    }

    method WriteNonblocking(data: seq<Byte>, io: SocketIo) returns (r: WriteResult)
      requires sock != peerSock
      modifies this`faults, peerSock`inbox
      ensures r == WriteResultOf(old(Snapshot()), |data|, io)
      ensures Snapshot() == old(Snapshot()).(faults := AfterWrite(old(faults)))
      ensures peerSock.inbox == if r.Wrote? then old(peerSock.inbox) + data[..r.count] else old(peerSock.inbox)
    {
      if faults.disconnected {
        return WriteRaised(EPIPE);
      }
      if faults.eintrWrites > 0 {
        faults := faults.(eintrWrites := faults.eintrWrites - 1);
        return WriteRaised(EINTR);
      }
      if faults.eagainWrites > 0 {
        faults := faults.(eagainWrites := faults.eagainWrites - 1);
        return WriteRaised(EAGAIN);
      }
      var view := data;
      if faults.shortWriteMax.Some? {
        view := data[..SliceLength(|data|, faults.shortWriteMax.value)];
      }
      if |view| == 0 {
        return Wrote(0);
      }
      r := sock.Send(view, peerSock, io);
    }

    method Configure(config: SerialConfig)
      modifies this
      ensures Snapshot() == old(Snapshot()).(config := config)
    {
      this.config := config;
    }

    method SetBreak(on: bool)
      modifies this
      ensures Snapshot() == old(Snapshot()).(breakAsserted := on)
    {
      breakAsserted := on;
    }

    /** A peek of up to 64 KiB: nothing is taken. */
    method InputWaiting() returns (n: nat)
      ensures n <= |sock.inbox| && n <= 65536
      ensures n == |sock.inbox| || n == 65536
    {
      n := if |sock.inbox| < 65536 then |sock.inbox| else 65536;
    }

    /** Reads blocks of 4096 bytes until nothing is left; the peer's queue is untouched. */
    method ResetInputBuffer()
      modifies sock`inbox
      ensures sock.inbox == []
    {
      while sock.inbox != []
        decreases |sock.inbox|
      {
        var block := if |sock.inbox| < 4096 then |sock.inbox| else 4096;
        sock.inbox := sock.inbox[block..];
      }
    }
  }
}
