/**
 One request, three ways to the line speed: Linux writes a code or BOTHER into the
 control word, Darwin overrides the driver's rate after `tcsetattr`, and the BSDs take
 the integer. Each is a step on the terminal as the kernel keeps it; `RunsAt` says what
 rate the hardware runs at, and is what all three must agree on.
*/
module LineSpeed {
  import opened Types
  import opened Termios
  import opened TermiosTheorems
  import KernelStructs
  import LinuxState

  datatype Os = LinuxOs | DarwinOs | BsdOs

  /** The `Bxxxx` constants: rate to constant, and on Linux constant to control-word bits. */
  datatype Speeds = Speeds(standard: map<int, int>, bits: map<int, Flags>, cbaud: Flags, bother: Flags)

  const PLACEHOLDER := 9600

  predicate SaneSpeeds(os: Os, p: Platform, sp: Speeds) {
    match os
    case LinuxOs =>
      && p.vmin < NCCS2 && p.vtime < NCCS2
      && sp.bother <= sp.cbaud && sp.cbaud !! OwnedC(p)
      && (forall r | r in sp.standard ::
            sp.standard[r] in sp.bits && sp.bits[sp.standard[r]] <= sp.cbaud && sp.bits[sp.standard[r]] != sp.bother)
      && (forall r, q | r in sp.standard && q in sp.standard ::
            sp.bits[sp.standard[r]] == sp.bits[sp.standard[q]] ==> r == q)
    // The constants of these systems are the rates themselves.
    case _ => forall r | r in sp.standard :: sp.standard[r] == r
  }

  /** The terminal: the attributes, and on Darwin the rate the driver was told last. */
  datatype Tty = Tty(attrs: Attrs, driverRate: int)

  /** The hardware runs at `rate`. On Linux the speed fields count only under BOTHER. */
  predicate RunsAt(os: Os, sp: Speeds, t: Tty, rate: int) {
    match os
    case LinuxOs =>
      var slot := t.attrs.cflag * sp.cbaud;
      if slot == sp.bother then t.attrs.ispeed == rate && t.attrs.ospeed == rate
      else rate in sp.standard && sp.standard[rate] in sp.bits && sp.bits[sp.standard[rate]] == slot
    case DarwinOs => t.driverRate == rate
    case BsdOs => t.attrs.ispeed == rate && t.attrs.ospeed == rate
  }

  /** Which of the two commits the kernel refuses, and which of Linux's RS-485 calls after them. */
  datatype Faults = Faults(commit: bool, speed: bool, rs485: LinuxState.Rs485Faults)

  datatype Verdict =
    | Applied
    | Rejected
    | Refused(feature: Feature)
    | SetFailed
    | SpeedFailed      // Darwin: the override of a custom rate
    | Rs485Refused     // Linux: the RS-485 step

  datatype Attempt = Attempt(verdict: Verdict, tty: Tty)

  /** Darwin and the BSDs reject these two before the descriptor is touched. */
  predicate RejectedUpFront(os: Os, c: SerialConfig) {
    os != LinuxOs && c.policy == Raise && (c.rs485.Some? || c.lowLatency)
  }

  /** The attributes the last commit leaves in the kernel. */
  function Committed(os: Os, sp: Speeds, t: Tty, a: Attrs, c: SerialConfig): Tty
    requires c.baudrate in sp.standard && os == LinuxOs ==> sp.standard[c.baudrate] in sp.bits
  {
    match os
    case LinuxOs =>
      if c.baudrate in sp.standard then
        t.(attrs := a.(cflag := Put(a.cflag, sp.cbaud, sp.bits[sp.standard[c.baudrate]])))
      else
        t.(attrs := a.(cflag := Put(a.cflag, sp.cbaud, sp.bother), cc := FitCc(a.cc),
                       ispeed := c.baudrate, ospeed := c.baudrate))
    case DarwinOs =>
      var speed := if c.baudrate in sp.standard then sp.standard[c.baudrate] else PLACEHOLDER;
      Tty(a.(ispeed := speed, ospeed := speed), speed)
    case BsdOs =>
      var speed := if c.baudrate in sp.standard then sp.standard[c.baudrate] else c.baudrate;
      t.(attrs := a.(ispeed := speed, ospeed := speed))
  }

  /** The first commit is refused; on Linux a custom rate must fit the 32-bit field of the structure. */
  predicate CommitFails(os: Os, sp: Speeds, c: SerialConfig, f: Faults) {
    f.commit || (os == LinuxOs && c.baudrate !in sp.standard && c.baudrate >= 0x1_0000_0000)
  }

  /** The speed override is refused; its argument has 64 bits. */
  predicate SpeedFails(c: SerialConfig, f: Faults) {
    f.speed || c.baudrate >= 0x1_0000_0000_0000_0000
  }

  /** Linux applies RS-485 after the terminal is committed, and that step may raise. */
  predicate Rs485Fails(os: Os, c: SerialConfig, f: Faults) {
    os == LinuxOs && c.rs485.Some? && LinuxState.Rs485Raises(c.rs485.value, c.policy, f.rs485)
  }

  /** One `configure`: pipeline, first commit, then Darwin's speed override of a custom rate or Linux's RS-485 step. */
  function Configure(os: Os, p: Platform, sp: Speeds, t: Tty, c: SerialConfig, f: Faults): Attempt
    requires SaneSpeeds(os, p, sp) && HasSlots(p, t.attrs)
  {
    if RejectedUpFront(os, c) then Attempt(Rejected, t)
    else
      match Pipeline(p, t.attrs, c)
      case Unsupported(feature) => Attempt(Refused(feature), t)
      case Done(a) =>
        if CommitFails(os, sp, c, f) then Attempt(SetFailed, t)
        else
          var t1 := Committed(os, sp, t, a, c);
          if os == DarwinOs && c.baudrate !in sp.standard then
            if SpeedFails(c, f) then Attempt(SpeedFailed, t1) else Attempt(Applied, t1.(driverRate := c.baudrate))
          else Attempt(if Rs485Fails(os, c, f) then Rs485Refused else Applied, t1)
  }

  // ---------------------------------------------------------------------
  // One configure
  // ---------------------------------------------------------------------

  lemma RateIsUnique(os: Os, p: Platform, sp: Speeds, t: Tty, r: int, q: int)
    requires SaneSpeeds(os, p, sp) && RunsAt(os, sp, t, r) && RunsAt(os, sp, t, q)
    ensures r == q
  {
  }

  /** Writing the speed slot does not disturb what the builders wrote. */
  lemma SlotIsApart(p: Platform, sp: Speeds, a: Attrs, slot: Flags)
    requires slot <= sp.cbaud && sp.cbaud !! OwnedC(p)
    ensures Put(a.cflag, sp.cbaud, slot) * sp.cbaud == slot
    ensures Decode(p, a.(cflag := Put(a.cflag, sp.cbaud, slot))) == Decode(p, a)
  {
    var w := Put(a.cflag, sp.cbaud, slot);
    assert w * p.csize == a.cflag * p.csize;
    assert w * p.parenb == a.cflag * p.parenb && w * p.parodd == a.cflag * p.parodd;
    assert w * p.cmspar == a.cflag * p.cmspar && w * p.cstopb == a.cflag * p.cstopb;
    assert w * p.rtscts == a.cflag * p.rtscts && w * p.hupcl == a.cflag * p.hupcl;
  }

  /** The whole of a successful configure is visible afterwards: the framing and the rate. */
  predicate Shows(os: Os, p: Platform, sp: Speeds, t: Tty, c: SerialConfig) {
    && RunsAt(os, sp, t, c.baudrate)
    && Decode(p, t.attrs)
       == Decoded(c.byteSize, c.parity, c.stopBits, c.flow.xonXoff, c.flow.rtsCts, c.hangupOnClose)
  }

  /** The framing of `c` is visible, and the rate is the one asked for or, half-applied, the placeholder. */
  predicate ShowsAttempt(os: Os, p: Platform, sp: Speeds, r: Attempt, c: SerialConfig) {
    match r.verdict
    case Applied => Shows(os, p, sp, r.tty, c)
    case Rs485Refused => Shows(os, p, sp, r.tty, c)
    case SpeedFailed =>
      && RunsAt(os, sp, r.tty, 9600)
      && Decode(p, r.tty.attrs)
         == Decoded(c.byteSize, c.parity, c.stopBits, c.flow.xonXoff, c.flow.rtsCts, c.hangupOnClose)
    case _ => true
  }

  /** The first commit leaves the framing in the kernel, whatever it does about the speed. */
  lemma CommitDecodes(os: Os, p: Platform, sp: Speeds, t: Tty, a: Attrs, c: SerialConfig)
    requires SaneSpeeds(os, p, sp)
    ensures Decode(p, Committed(os, sp, t, a, c).attrs) == Decode(p, a)
  {
    if os == LinuxOs {
      var slot := if c.baudrate in sp.standard then sp.bits[sp.standard[c.baudrate]] else sp.bother;
      SlotIsApart(p, sp, a, slot);
    }
  }

  /** The rate after the first commit: the one asked for, except for a custom one on Darwin. */
  lemma CommitRuns(os: Os, p: Platform, sp: Speeds, t: Tty, a: Attrs, c: SerialConfig)
    requires SaneSpeeds(os, p, sp)
    ensures RunsAt(os, sp, Committed(os, sp, t, a, c),
                   if os == DarwinOs && c.baudrate !in sp.standard then PLACEHOLDER else c.baudrate)
  {
    if os == LinuxOs {
      var slot := if c.baudrate in sp.standard then sp.bits[sp.standard[c.baudrate]] else sp.bother;
      SlotIsApart(p, sp, a, slot);
    }
  }

  lemma AppliedShows(os: Os, p: Platform, sp: Speeds, t: Tty, c: SerialConfig, f: Faults)
    requires p.Sane() && SaneSpeeds(os, p, sp) && HasSlots(p, t.attrs)
    ensures ShowsAttempt(os, p, sp, Configure(os, p, sp, t, c, f), c)
  {
    PipelineIsWanted(p, t.attrs, c);
    if Supported(p, c) {
      DecodesToConfig(p, t.attrs, c);
      CommitDecodes(os, p, sp, t, Pipeline(p, t.attrs, c).attrs, c);
      CommitRuns(os, p, sp, t, Pipeline(p, t.attrs, c).attrs, c);
    }
  }

  /** A configure that raises leaves the terminal alone, except exactly when Darwin's second commit or Linux's RS-485 step fails. */
  lemma RaisingIsAtomic(os: Os, p: Platform, sp: Speeds, t: Tty, c: SerialConfig, f: Faults)
    requires SaneSpeeds(os, p, sp) && HasSlots(p, t.attrs)
    ensures var r := Configure(os, p, sp, t, c, f);
            && (!Changes(r.verdict) ==> r.tty == t)
            && (r.verdict == SpeedFailed <==>
                  os == DarwinOs && !RejectedUpFront(os, c) && Pipeline(p, t.attrs, c).Done?
                  && c.baudrate !in sp.standard && !CommitFails(os, sp, c, f) && SpeedFails(c, f))
            && (r.verdict == SpeedFailed ==> RunsAt(os, sp, r.tty, 9600))
            && (r.verdict == Rs485Refused <==>
                  os == LinuxOs && c.rs485.Some? && LinuxState.Rs485Raises(c.rs485.value, c.policy, f.rs485)
                  && Pipeline(p, t.attrs, c).Done? && !CommitFails(os, sp, c, f))
            && (r.verdict == Rs485Refused ==>
                  r.tty == Configure(os, p, sp, t, c.(rs485 := None), f).tty)
  {
  }

  /** Exactly when a configure returns normally: nothing is unsupported and no call it makes fails. */
  lemma AppliedExactlyWhen(os: Os, p: Platform, sp: Speeds, t: Tty, c: SerialConfig, f: Faults)
    requires p.Sane() && SaneSpeeds(os, p, sp) && HasSlots(p, t.attrs)
    ensures var custom := c.baudrate !in sp.standard;
            var fine := Supported(p, c) && (os != LinuxOs && c.policy == Raise ==> c.rs485.None? && !c.lowLatency);
            Configure(os, p, sp, t, c, f).verdict == Applied
            <==> fine && !f.commit
                 && (os == LinuxOs && custom ==> c.baudrate < 0x1_0000_0000)
                 && (os == DarwinOs && custom ==> !f.speed && c.baudrate < 0x1_0000_0000_0000_0000)
                 && (os == LinuxOs && c.rs485.Some? ==>
                       (f.rs485.read ==> c.policy != Raise)
                       && (!f.rs485.read ==> c.rs485.value.FiniteDelays() && (f.rs485.write ==> c.policy != Raise)))
  {
    PipelineRefuses(p, t.attrs, c);
  }

  /** Exactly when that half-done configure happens to leave the rate of the port where it was. */
  lemma HalfAppliedRate(p: Platform, sp: Speeds, t: Tty, c: SerialConfig, f: Faults, rate: int)
    requires SaneSpeeds(DarwinOs, p, sp) && HasSlots(p, t.attrs) && RunsAt(DarwinOs, sp, t, rate)
    requires Configure(DarwinOs, p, sp, t, c, f).verdict == SpeedFailed
    ensures RunsAt(DarwinOs, sp, Configure(DarwinOs, p, sp, t, c, f).tty, rate) <==> rate == 9600
  {
  }

  lemma SlotsStay(os: Os, p: Platform, sp: Speeds, t: Tty, c: SerialConfig, f: Faults)
    requires p.Sane() && SaneSpeeds(os, p, sp) && HasSlots(p, t.attrs)
    ensures HasSlots(p, Configure(os, p, sp, t, c, f).tty.attrs)
  {
    PipelineIsWanted(p, t.attrs, c);
  }

  // ---------------------------------------------------------------------
  // Any sequence of configures
  // ---------------------------------------------------------------------

  datatype Request = Request(config: SerialConfig, faults: Faults)

  datatype History = History(tty: Tty, verdicts: seq<Verdict>)

  function Replay(os: Os, p: Platform, sp: Speeds, t: Tty, requests: seq<Request>): (h: History)
    requires p.Sane() && SaneSpeeds(os, p, sp) && HasSlots(p, t.attrs)
    ensures |h.verdicts| == |requests| && HasSlots(p, h.tty.attrs)
    decreases |requests|
  {
    if requests == [] then History(t, [])
    else
      var before := Replay(os, p, sp, t, requests[..|requests| - 1]);
      var last := requests[|requests| - 1];
      SlotsStay(os, p, sp, before.tty, last.config, last.faults);
      var r := Configure(os, p, sp, before.tty, last.config, last.faults);
      History(r.tty, before.verdicts + [r.verdict])
  }

  /** The last request of the sequence that changed the terminal, in full or in part. */
  predicate LastChange(h: History, i: int) {
    && 0 <= i < |h.verdicts| && Changes(h.verdicts[i])
    && (forall j | i < j < |h.verdicts| :: !Changes(h.verdicts[j]))
  }

  predicate Changes(v: Verdict) {
    v == Applied || v == SpeedFailed || v == Rs485Refused
  }

  /** The last change shows, and without one the terminal is `t`. */
  ghost predicate HistoryShows(os: Os, p: Platform, sp: Speeds, t: Tty, requests: seq<Request>, h: History)
    requires |h.verdicts| == |requests|
  {
    && (forall i | LastChange(h, i) ::
          ShowsAttempt(os, p, sp, Attempt(h.verdicts[i], h.tty), requests[i].config))
    && ((forall i | 0 <= i < |requests| :: !Changes(h.verdicts[i])) ==> h.tty == t)
  }

  /**
   After any sequence of configures, mixing standard and custom rates and failures of every
   kind, the terminal shows the last config that changed it: rate and framing if that
   configure returned normally or raised for RS-485, the framing and the placeholder rate
   if its speed override failed. If none changed it, it is untouched.
  */
  lemma {:induction false} LastAppliedShows(os: Os, p: Platform, sp: Speeds, t: Tty, requests: seq<Request>)
    requires p.Sane() && SaneSpeeds(os, p, sp) && HasSlots(p, t.attrs)
    ensures HistoryShows(os, p, sp, t, requests, Replay(os, p, sp, t, requests))
    decreases |requests|
  {
    if requests == [] {
    } else {
      var front, last := requests[..|requests| - 1], requests[|requests| - 1];
      var before := Replay(os, p, sp, t, front);
      LastAppliedShows(os, p, sp, t, front);
      AppliedShows(os, p, sp, before.tty, last.config, last.faults);
      RaisingIsAtomic(os, p, sp, before.tty, last.config, last.faults);
      NextShows(os, p, sp, t, requests, before, Configure(os, p, sp, before.tty, last.config, last.faults));
    }
  }

  lemma NextShows(os: Os, p: Platform, sp: Speeds, t: Tty, requests: seq<Request>, before: History, r: Attempt)
    requires |before.verdicts| + 1 == |requests|
    requires HistoryShows(os, p, sp, t, requests[..|requests| - 1], before)
    requires ShowsAttempt(os, p, sp, r, requests[|requests| - 1].config)
    requires !Changes(r.verdict) ==> r.tty == before.tty
    ensures HistoryShows(os, p, sp, t, requests, History(r.tty, before.verdicts + [r.verdict]))
  {
    var h := History(r.tty, before.verdicts + [r.verdict]);
    forall i | LastChange(h, i)
      ensures ShowsAttempt(os, p, sp, Attempt(h.verdicts[i], h.tty), requests[i].config)
    {
      LastChangeOf(before, h, i);
    }
    assert forall i | 0 <= i < |before.verdicts| :: before.verdicts[i] == h.verdicts[i];
  }

  /** One more verdict is the last change, or leaves the last change where it was. */
  lemma LastChangeOf(before: History, h: History, i: int)
    requires |h.verdicts| == |before.verdicts| + 1 && h.verdicts[..|before.verdicts|] == before.verdicts
    requires LastChange(h, i)
    ensures var n := |before.verdicts|;
            if Changes(h.verdicts[n]) then i == n
            else i < n && LastChange(before, i) && h.verdicts[i] == before.verdicts[i]
  {
    assert forall j | 0 <= j < |before.verdicts| :: before.verdicts[j] == h.verdicts[j];
  }

  predicate InPartOnly(os: Os, sp: Speeds, v: Verdict, c: SerialConfig) {
    && (v == SpeedFailed ==> os == DarwinOs && c.baudrate !in sp.standard)
    && (v == Rs485Refused ==> os == LinuxOs && c.rs485.Some?)
  }

  /** The BSDs never apply in part; Darwin does by its override of a custom rate, Linux by RS-485. */
  lemma {:induction false} WhoAppliesInPart(os: Os, p: Platform, sp: Speeds, t: Tty, requests: seq<Request>, j: nat)
    requires p.Sane() && SaneSpeeds(os, p, sp) && HasSlots(p, t.attrs) && j < |requests|
    ensures InPartOnly(os, sp, Replay(os, p, sp, t, requests).verdicts[j], requests[j].config)
    decreases |requests|
  {
    var n := |requests| - 1;
    var before := Replay(os, p, sp, t, requests[..n]);
    if j == n {
      RaisingIsAtomic(os, p, sp, before.tty, requests[n].config, requests[n].faults);
    } else {
      WhoAppliesInPart(os, p, sp, t, requests[..n], j);
    }
  }

  // ---------------------------------------------------------------------
  // The backends in place
  // ---------------------------------------------------------------------

  /** The terminal device; a failing call changes nothing. */
  class Device {
    const os: Os
    const speeds: Speeds
    var attrs: Attrs
    var driverRate: int

    constructor (os: Os, speeds: Speeds, t: Tty)
      ensures this.os == os && this.speeds == speeds && Snapshot() == t
    {
      this.os, this.speeds, attrs, driverRate := os, speeds, t.attrs, t.driverRate;
    }

    function Snapshot(): Tty
      reads this
    {
      Tty(attrs, driverRate)
    }

    /** `tcsetattr`: on Linux the speed goes into the control word, on Darwin it sets the driver's rate. */
    method Tcsetattr(a: Attrs, speed: int, fails: bool) returns (ok: bool)
      requires os == LinuxOs ==> speed in speeds.bits
      modifies this
      ensures ok == !fails
      ensures !ok ==> Snapshot() == old(Snapshot())
      ensures ok && os == LinuxOs ==>
                Snapshot() == Tty(a.(cflag := Put(a.cflag, speeds.cbaud, speeds.bits[speed])), old(driverRate))
      ensures ok && os == DarwinOs ==> Snapshot() == Tty(a.(ispeed := speed, ospeed := speed), speed)
      ensures ok && os == BsdOs ==> Snapshot() == Tty(a.(ispeed := speed, ospeed := speed), old(driverRate))
    {
      ok := !fails;
      if ok {
        match os
        case LinuxOs => attrs := a.(cflag := Put(a.cflag, speeds.cbaud, speeds.bits[speed]));
        case DarwinOs => attrs, driverRate := a.(ispeed := speed, ospeed := speed), speed;
        case BsdOs => attrs := a.(ispeed := speed, ospeed := speed);
      }
    }

    /** `TCSETS2`: one commit of attributes and integer speeds. */
    method Tcsets2(a: Attrs, fails: bool) returns (ok: bool)
      modifies this`attrs
      ensures ok == !fails
      ensures attrs == if ok then a else old(attrs)
    {
      ok := !fails;
      if ok {
        attrs := a;
      }
    }

    /** `IOSSIOSPEED`: tells the driver a rate; the attributes keep the placeholder. */
    method Iossiospeed(rate: int, fails: bool) returns (ok: bool)
      modifies this`driverRate
      ensures ok == !fails
      ensures driverRate == if ok then rate else old(driverRate)
    {
      ok := !fails;
      if ok {
        driverRate := rate;
      }
    }
  }

  /** `configure` of the three backends on an open descriptor. */
  method ConfigureDevice(p: Platform, d: Device, c: SerialConfig, f: Faults) returns (v: Verdict)
    requires SaneSpeeds(d.os, p, d.speeds) && HasSlots(p, d.attrs)
    modifies d
    ensures Attempt(v, d.Snapshot()) == Configure(d.os, p, d.speeds, old(d.Snapshot()), c, f)
  {
    if d.os != LinuxOs && c.policy == Raise && (c.rs485.Some? || c.lowLatency) {
      return Rejected;
    }
    var standard := c.baudrate in d.speeds.standard;
    var r := Pipeline(p, d.attrs, c);
    if r.Unsupported? {
      return Refused(r.feature);
    }
    if !standard && d.os == LinuxOs {
      var marked := Put(r.attrs.cflag, d.speeds.cbaud, d.speeds.bother);
      var bytes := CcBytes(r.attrs.cc);
      var cc := NumbersOf(bytes);
      if c.baudrate >= 0x1_0000_0000 {
        return SetFailed;
      }
      var ok := d.Tcsets2(r.attrs.(cflag := marked, cc := cc, ispeed := c.baudrate, ospeed := c.baudrate), f.commit);
      return if !ok then SetFailed else if Rs485Fails(d.os, c, f) then Rs485Refused else Applied;
    }
    var speed := if standard then d.speeds.standard[c.baudrate]
                 else if d.os == DarwinOs then PLACEHOLDER else c.baudrate;
    var ok := d.Tcsetattr(r.attrs, speed, f.commit);
    if !ok {
      return SetFailed;
    }
    if !standard && d.os == DarwinOs {
      ok := d.Iossiospeed(c.baudrate, f.speed || c.baudrate >= 0x1_0000_0000_0000_0000);
      return if ok then Applied else SpeedFailed;
    }
    v := if Rs485Fails(d.os, c, f) then Rs485Refused else Applied;
  }

  // ---------------------------------------------------------------------
  // The control characters and the structure of the Linux custom commit
  // ---------------------------------------------------------------------

  const NCCS2 := KernelStructs.NCCS2

  /** What one entry becomes: the first byte of a byte string, or the low eight bits of a number. */
  function CcByte(v: Cc): (b: int)
    ensures 0 <= b < 256
  {
    match v
    case Number(n) => n % 256
    case Text(t) => if t == [] then 0 else t[0] as int
  }

  /** The control characters as the kernel reports them after a custom commit. */
  function FitCc(cc: seq<Cc>): (r: seq<Cc>)
    ensures |r| == NCCS2
    ensures forall i | 0 <= i < NCCS2 :: r[i] == Number(if i < |cc| then CcByte(cc[i]) else 0)
  {
    seq(NCCS2, i requires 0 <= i < NCCS2 => Number(if i < |cc| then CcByte(cc[i]) else 0))
  }

  /** Characters the kernel reported go back as they were; of a byte string the first byte counts, and a short list is filled up. */
  lemma CharactersAreKept(cc: seq<Cc>, i: nat)
    requires i < NCCS2
    ensures i < |cc| && cc[i].Number? && 0 <= cc[i].value <= 255 ==> FitCc(cc)[i] == cc[i]
    ensures i < |cc| && cc[i].Text? && cc[i].bytes != [] ==> FitCc(cc)[i] == Number(cc[i].bytes[0] as int)
    ensures i < |cc| && cc[i] == Text([]) ==> FitCc(cc)[i] == Number(0)
    ensures |cc| <= i ==> FitCc(cc)[i] == Number(0)
    ensures |cc| == NCCS2 && (forall j | 0 <= j < |cc| :: cc[j].Number? && 0 <= cc[j].value <= 255) ==> FitCc(cc) == cc
  {
  }

  /** After a custom commit on Linux the kernel has 19 characters, each a byte. */
  lemma CustomCommitFits(p: Platform, sp: Speeds, t: Tty, c: SerialConfig, f: Faults)
    requires p.Sane() && SaneSpeeds(LinuxOs, p, sp) && HasSlots(p, t.attrs)
    requires c.baudrate !in sp.standard && Changes(Configure(LinuxOs, p, sp, t, c, f).verdict)
    ensures var cc := Configure(LinuxOs, p, sp, t, c, f).tty.attrs.cc;
            && |cc| == 19 && (forall i | 0 <= i < 19 :: cc[i].Number? && 0 <= cc[i].value <= 255)
            && cc[p.vmin] == Number(1) && cc[p.vtime] == Number(0)
  {
    var before := Pipeline(p, t.attrs, c).attrs.cc;
    CustomCommitCc(p, sp, t, c, f);
    PipelineIsWanted(p, t.attrs, c);
    CharactersAreKept(before, p.vmin);
    CharactersAreKept(before, p.vtime);
  }

  lemma CustomCommitCc(p: Platform, sp: Speeds, t: Tty, c: SerialConfig, f: Faults)
    requires SaneSpeeds(LinuxOs, p, sp) && HasSlots(p, t.attrs)
    requires c.baudrate !in sp.standard && Changes(Configure(LinuxOs, p, sp, t, c, f).verdict)
    ensures Pipeline(p, t.attrs, c).Done?
    ensures Configure(LinuxOs, p, sp, t, c, f).tty.attrs.cc == FitCc(Pipeline(p, t.attrs, c).attrs.cc)
  {
  }

  /** `_cc_bytes`: exactly 19 bytes, cut or filled up with zeros. */
  method CcBytes(cc: seq<Cc>) returns (out: array<int>)
    ensures fresh(out) && out.Length == NCCS2
    ensures forall i | 0 <= i < NCCS2 :: out[i] == if i < |cc| then CcByte(cc[i]) else 0
  {
    out := new int[NCCS2](_ => 0);
    var n := if |cc| < NCCS2 then |cc| else NCCS2;
    for index := 0 to n
      invariant forall i | 0 <= i < NCCS2 :: out[i] == if i < index then CcByte(cc[i]) else 0
    {
      out[index] := CcByte(cc[index]);
    }
  }

  method NumbersOf(bytes: array<int>) returns (cc: seq<Cc>)
    ensures |cc| == bytes.Length && forall i | 0 <= i < |cc| :: cc[i] == Number(bytes[i])
  {
    cc := [];
    for index := 0 to bytes.Length
      invariant |cc| == index && forall i | 0 <= i < index :: cc[i] == Number(bytes[i])
    {
      cc := cc + [Number(bytes[index])];
    }
  }

  /** A way of writing flag words of 32 bits down that can be read back. */
  ghost predicate IsCoding(enc: Flags -> KernelStructs.Word, dec: KernelStructs.Word -> Flags) {
    forall x: Flags | Fits32(x) :: dec(enc(x)) == x
  }

  ghost predicate Fits32(x: Flags) {
    forall b | b in x :: b < 32
  }

  function ByteCc(cc: seq<Cc>): (r: seq<Byte>)
    ensures |r| == NCCS2
    ensures forall i | 0 <= i < NCCS2 :: r[i] == (if i < |cc| then CcByte(cc[i]) else 0) as Byte
  {
    seq(NCCS2, i requires 0 <= i < NCCS2 => (if i < |cc| then CcByte(cc[i]) else 0) as Byte)
  }

  /** The structure that is handed to `TCSETS2`. */
  function ToStructure(enc: Flags -> KernelStructs.Word, a: Attrs, line: Byte): KernelStructs.Termios2
    requires 0 <= a.ispeed < 0x1_0000_0000 && 0 <= a.ospeed < 0x1_0000_0000
  {
    KernelStructs.Termios2(enc(a.iflag), enc(a.oflag), enc(a.cflag), enc(a.lflag), line, ByteCc(a.cc),
                           a.ispeed as KernelStructs.Word, a.ospeed as KernelStructs.Word)
  }

  /** What the kernel unpacks from those 44 bytes is what the backend packed: flags, line discipline, characters, speeds. */
  lemma StructureArrives(order: KernelStructs.ByteOrder, enc: Flags -> KernelStructs.Word,
                         dec: KernelStructs.Word -> Flags, a: Attrs, line: Byte)
    requires IsCoding(enc, dec) && 0 <= a.ispeed < 0x1_0000_0000 && 0 <= a.ospeed < 0x1_0000_0000
    requires Fits32(a.iflag) && Fits32(a.oflag) && Fits32(a.cflag) && Fits32(a.lflag)
    ensures var r := KernelStructs.Unpack(order, KernelStructs.Pack(order, ToStructure(enc, a, line)));
            && r.Some?
            && dec(r.value.iflag) == a.iflag && dec(r.value.oflag) == a.oflag
            && dec(r.value.cflag) == a.cflag && dec(r.value.lflag) == a.lflag
            && r.value.line == line && r.value.cc == ByteCc(a.cc)
            && r.value.ispeed == a.ispeed as KernelStructs.Word && r.value.ospeed == a.ospeed as KernelStructs.Word
  {
    KernelStructs.Termios2RoundTrip(order, ToStructure(enc, a, line));
  }

  // ---------------------------------------------------------------------
  // Linux's table of standard rates
  // ---------------------------------------------------------------------

  /** Rate to `Bxxxx` constant, of <asm-generic/termbits.h>. */
  const LINUX_RATES: map<int, int> := map[
    50 := 0x1, 75 := 0x2, 110 := 0x3, 134 := 0x4, 150 := 0x5, 200 := 0x6, 300 := 0x7, 600 := 0x8,
    1200 := 0x9, 1800 := 0xA, 2400 := 0xB, 4800 := 0xC, 9600 := 0xD, 19200 := 0xE, 38400 := 0xF,
    57600 := 0x1001, 115200 := 0x1002, 230400 := 0x1003, 460800 := 0x1004, 500000 := 0x1005,
    576000 := 0x1006, 921600 := 0x1007, 1000000 := 0x1008, 1152000 := 0x1009, 1500000 := 0x100A,
    2000000 := 0x100B, 2500000 := 0x100C, 3000000 := 0x100D, 3500000 := 0x100E, 4000000 := 0x100F]

  /** The bits of such a constant: four low ones, and one for the extended rates. */
  function BitsOf(code: int): Flags {
    (if code % 2 == 1 then {0} else {}) + (if code / 2 % 2 == 1 then {1} else {})
    + (if code / 4 % 2 == 1 then {2} else {}) + (if code / 8 % 2 == 1 then {3} else {})
    + (if code / 0x1000 % 2 == 1 then {12} else {})
  }

  function CodeOf(x: Flags): int {
    (if 0 in x then 1 else 0) + (if 1 in x then 2 else 0) + (if 2 in x then 4 else 0) + (if 3 in x then 8 else 0)
    + (if 12 in x then 0x1000 else 0)
  }

  const LINUX_SPEEDS := Speeds(
    LINUX_RATES,
    map code | code in LINUX_RATES.Values :: BitsOf(code),
    {0, 1, 2, 3, 12},
    {12})

  lemma FourBits(low: int)
    requires 0 <= low < 16
    ensures low == low % 2 + low / 2 % 2 * 2 + low / 4 % 2 * 4 + low / 8 % 2 * 8
  {
  }

  /** The bit of the extended rates does not disturb the low ones. */
  lemma Extended(low: int)
    requires 0 <= low < 16
    ensures var code := low + 0x1000;
            && code / 2 == low / 2 + 0x800 && code / 4 == low / 4 + 0x400 && code / 8 == low / 8 + 0x200
            && code / 0x1000 == 1 && low / 0x1000 == 0
  {
  }

  lemma Parities(x: int, y: int)
    ensures (x + 2 * y) % 2 == x % 2
  {
  }

  lemma FiveBits(code: int)
    requires 0 <= code < 0x2000 && code % 0x1000 < 16
    ensures code == code % 2 + code / 2 % 2 * 2 + code / 4 % 2 * 4 + code / 8 % 2 * 8 + code / 0x1000 % 2 * 0x1000
  {
    var low := if code < 0x1000 then code else code - 0x1000;
    FourBits(low);
    Extended(low);
    Parities(low, 0x800);
    Parities(low / 2, 0x400);
    Parities(low / 4, 0x200);
    Parities(low / 8, 0x100);
  }

  lemma Bits(code: int)
    ensures var x := BitsOf(code);
            && (0 in x <==> code % 2 == 1) && (1 in x <==> code / 2 % 2 == 1) && (2 in x <==> code / 4 % 2 == 1)
            && (3 in x <==> code / 8 % 2 == 1) && (12 in x <==> code / 0x1000 % 2 == 1)
            && x <= {0, 1, 2, 3, 12}
  {
  }

  lemma BitsDetermineCode(code: int)
    requires 0 <= code < 0x2000 && code % 0x1000 < 16
    ensures CodeOf(BitsOf(code)) == code
  {
    Bits(code);
    FiveBits(code);
  }

  /** Every rate of the table has a code of five bits that is not BOTHER, and no two rates share one. */
  lemma TableCodes(r: int, q: int)
    requires r in LINUX_RATES && q in LINUX_RATES
    ensures 0 <= LINUX_RATES[r] < 0x2000 && 0 < LINUX_RATES[r] % 0x1000 < 16
    ensures LINUX_RATES[r] == LINUX_RATES[q] ==> r == q
  {
  }

  lemma EntryIsSane(r: int)
    requires r in LINUX_RATES
    ensures LINUX_RATES[r] in LINUX_SPEEDS.bits
    ensures LINUX_SPEEDS.bits[LINUX_RATES[r]] == BitsOf(LINUX_RATES[r])
    ensures BitsOf(LINUX_RATES[r]) <= LINUX_SPEEDS.cbaud && BitsOf(LINUX_RATES[r]) != LINUX_SPEEDS.bother
  {
    TableCodes(r, r);
    Bits(LINUX_RATES[r]);
    BitsDetermineCode(LINUX_RATES[r]);
    assert CodeOf(LINUX_SPEEDS.bother) == 0x1000;
  }

  lemma EntriesAreApart(r: int, q: int)
    requires r in LINUX_RATES && q in LINUX_RATES && BitsOf(LINUX_RATES[r]) == BitsOf(LINUX_RATES[q])
    ensures r == q
  {
    TableCodes(r, q);
    TableCodes(q, r);
    BitsDetermineCode(LINUX_RATES[r]);
    BitsDetermineCode(LINUX_RATES[q]);
  }

  /** Linux's table meets what the results assume of one. */
  lemma LinuxSpeedsAreSane()
    ensures SaneSpeeds(LinuxOs, LINUX, LINUX_SPEEDS)
  {
    SlotIsFree();
    forall r | r in LINUX_RATES
      ensures LINUX_RATES[r] in LINUX_SPEEDS.bits
      ensures LINUX_SPEEDS.bits[LINUX_RATES[r]] <= LINUX_SPEEDS.cbaud
      ensures LINUX_SPEEDS.bits[LINUX_RATES[r]] != LINUX_SPEEDS.bother
    {
      EntryIsSane(r);
    }
    forall r, q | r in LINUX_RATES && q in LINUX_RATES
                  && LINUX_SPEEDS.bits[LINUX_RATES[r]] == LINUX_SPEEDS.bits[LINUX_RATES[q]]
      ensures r == q
    {
      EntryIsSane(r);
      EntryIsSane(q);
      EntriesAreApart(r, q);
    }
  }

  /** The speed slot of the control word belongs to none of the builders. */
  lemma SlotIsFree()
    ensures LINUX_SPEEDS.bother <= LINUX_SPEEDS.cbaud && LINUX_SPEEDS.cbaud !! OwnedC(LINUX)
    ensures LINUX.vmin < NCCS2 && LINUX.vtime < NCCS2
  {
    assert OwnedC(LINUX) == {4, 5, 8, 9, 30, 6, 31, 10, 7, 11};
  }
}
