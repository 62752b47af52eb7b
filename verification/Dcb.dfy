/**
 The Win32 DCB: laying a configuration over the driver's current one.

 `Dcb` is the structure as a value, `Overlay` what `apply_config` makes of it. The class
 `DCB` is the structure overwritten field by field. Characters are bytes, the other
 fields unsigned integers of the widths Microsoft's layout gives them.
*/
module Dcb {
  import opened Types

  const XON_CHAR: int := 0x11
  const XOFF_CHAR: int := 0x13
  const XON_LIM := 2048
  const XOFF_LIM := 512
  const CONTROL_ENABLE := 1
  const CONTROL_HANDSHAKE := 2
  const DCB_SIZE := 28

  /** The 32 packed bits, first field lowest. */
  datatype Flags = Flags(
    binary: nat,
    parity: nat,
    outxCtsFlow: nat,
    outxDsrFlow: nat,
    dtrControl: nat,
    dsrSensitivity: nat,
    txContinueOnXoff: nat,
    outX: nat,
    inX: nat,
    useErrorChar: nat,
    dropNull: nat,
    rtsControl: nat,
    abortOnError: nat,
    dummy2: nat)

  /** The four fields `apply_config` sets only for XON/XOFF. */
  datatype Xon = Xon(xonLim: int, xoffLim: int, xonChar: int, xoffChar: int)

  /** The fields `apply_config` never sets, besides the reserved bits of the flags. */
  datatype Others = Others(wReserved: int, errorChar: int, eofChar: int, evtChar: int, wReserved1: int)

  datatype Dcb = Dcb(
    length: int,
    baudRate: int,
    flags: Flags,
    byteSize: int,
    parity: int,
    stopBits: int,
    xon: Xon,
    others: Others)

  const DEFAULT_XON := Xon(XON_LIM, XOFF_LIM, XON_CHAR, XOFF_CHAR)

  // ---------------------------------------------------------------------
  // The codes
  // ---------------------------------------------------------------------

  function ParityCode(p: Parity): int {
    match p case NoParity => 0 case Odd => 1 case Even => 2 case Mark => 3 case Space => 4
  }

  function StopBitsCode(s: StopBits): int {
    match s case One => 0 case OnePointFive => 1 case Two => 2
  }

  function ByteSizeCode(b: ByteSize): int {
    match b case Five => 5 case Six => 6 case Seven => 7 case Eight => 8
  }

  function ParityOf(code: int): (p: Option<Parity>)
    ensures p.Some? ==> ParityCode(p.value) == code
  {
    if code == 0 then Some(NoParity) else if code == 1 then Some(Odd) else if code == 2 then Some(Even)
    else if code == 3 then Some(Mark) else if code == 4 then Some(Space) else None
  }

  function StopBitsOf(code: int): (s: Option<StopBits>)
    ensures s.Some? ==> StopBitsCode(s.value) == code
  {
    if code == 0 then Some(One) else if code == 1 then Some(OnePointFive) else if code == 2 then Some(Two) else None
  }

  function ByteSizeOf(code: int): (b: Option<ByteSize>)
    ensures b.Some? ==> ByteSizeCode(b.value) == code
  {
    if code == 5 then Some(Five) else if code == 6 then Some(Six) else if code == 7 then Some(Seven)
    else if code == 8 then Some(Eight) else None
  }

  // ---------------------------------------------------------------------
  // Overlay and read back
  // ---------------------------------------------------------------------

  function Bit(b: bool): nat {
    if b then 1 else 0
  }

  function Control(handshake: bool): nat {
    if handshake then CONTROL_HANDSHAKE else CONTROL_ENABLE
  }

  function FlagsFor(config: SerialConfig, dummy2: nat): Flags {
    var flow := config.flow;
    Flags(1, Bit(config.parity != NoParity), Bit(flow.rtsCts), Bit(flow.dtrDsr), Control(flow.dtrDsr),
          0, 0, Bit(flow.xonXoff), Bit(flow.xonXoff), 0, 0, Control(flow.rtsCts), 0, dummy2)
  }

  /** A `c_uint32` field keeps the low 32 bits of what is stored in it. */
  function Uint32(n: int): (r: int)
    ensures 0 <= r < 0x1_0000_0000
    ensures r == n <==> 0 <= n < 0x1_0000_0000
  {
    n % 0x1_0000_0000
  }

  function Overlay(d: Dcb, config: SerialConfig): Dcb {
    Dcb(DCB_SIZE, Uint32(config.baudrate), FlagsFor(config, d.flags.dummy2),
        ByteSizeCode(config.byteSize), ParityCode(config.parity), StopBitsCode(config.stopBits),
        if config.flow.xonXoff then DEFAULT_XON else d.xon, d.others)
  }

  datatype Decoded = Decoded(
    baudrate: int,
    byteSize: ByteSize,
    parity: Parity,
    stopBits: StopBits,
    flow: FlowControl,
    binary: nat,
    abortOnError: nat,
    checksParity: nat)

  datatype Readback = Fields(fields: Decoded) | UnknownParity(code: int) | UnknownStopBits(code: int) | UnknownByteSize(code: int)

  function ReadDcb(d: Dcb): Readback {
    var parity := ParityOf(d.parity);
    if parity.None? then UnknownParity(d.parity) else
    var stopBits := StopBitsOf(d.stopBits);
    if stopBits.None? then UnknownStopBits(d.stopBits) else
    var byteSize := ByteSizeOf(d.byteSize);
    if byteSize.None? then UnknownByteSize(d.byteSize) else
    var f := d.flags;
    Fields(Decoded(
      d.baudRate, byteSize.value, parity.value, stopBits.value,
      FlowControl(f.outX != 0 && f.inX != 0,
                  f.outxCtsFlow != 0 && f.rtsControl == CONTROL_HANDSHAKE,
                  f.outxDsrFlow != 0 && f.dtrControl == CONTROL_HANDSHAKE),
      f.binary, f.abortOnError, f.parity))
  }

  /** Whatever the driver had, reading back gives the configuration; the rate if it fits 32 bits. */
  lemma ReadBackIsConfig(d: Dcb, config: SerialConfig)
    requires config.Valid()
    ensures var r := ReadDcb(Overlay(d, config));
            && r.Fields?
            && r.fields.(baudrate := config.baudrate)
               == Decoded(config.baudrate, config.byteSize, config.parity, config.stopBits, config.flow,
                          1, 0, Bit(config.parity != NoParity))
            && (r.fields.baudrate == config.baudrate <==> config.baudrate < 0x1_0000_0000)
  {
  }

  /** What every DCB has, whatever the driver had and the config says, and how the control lines are driven. */
  lemma OverlayMandates(d: Dcb, config: SerialConfig)
    ensures var o := Overlay(d, config);
            var f := o.flags;
            && o.length == 28
            && f.binary == 1 && f.abortOnError == 0 && f.dropNull == 0 && f.useErrorChar == 0
            && f.dsrSensitivity == 0 && f.txContinueOnXoff == 0
            && (f.parity == 1 <==> config.parity != NoParity) && (f.parity == 0 <==> config.parity == NoParity)
            && f.outX == f.inX && (f.outX == 1 <==> config.flow.xonXoff) && (f.outX == 0 <==> !config.flow.xonXoff)
            && (f.outxCtsFlow, f.rtsControl) == (if config.flow.rtsCts then (1, 2) else (0, 1))
            && (f.outxDsrFlow, f.dtrControl) == (if config.flow.dtrDsr then (1, 2) else (0, 1))
            && o.parity == (match config.parity case NoParity => 0 case Odd => 1 case Even => 2 case Mark => 3 case Space => 4)
            && o.stopBits == (match config.stopBits case One => 0 case OnePointFive => 1 case Two => 2)
            && o.byteSize == (match config.byteSize case Five => 5 case Six => 6 case Seven => 7 case Eight => 8)
            && (config.flow.xonXoff ==> o.xon == Xon(2048, 512, 0x11, 0x13))
  {
  }

  /** The last overlay wins, except that the four XON/XOFF fields may keep the earlier one's values. */
  lemma LastOverlayWins(d: Dcb, c1: SerialConfig, c2: SerialConfig)
    ensures Overlay(Overlay(d, c1), c2) == Overlay(d, c2).(xon := Overlay(Overlay(d, c1), c2).xon)
    ensures Overlay(Overlay(d, c1), c2) == Overlay(d, c2)
            <==> c2.flow.xonXoff || !c1.flow.xonXoff || d.xon == DEFAULT_XON
  {
  }

  // ---------------------------------------------------------------------
  // Runs of configures
  // ---------------------------------------------------------------------

  function OverlayAll(d: Dcb, configs: seq<SerialConfig>): Dcb
    decreases |configs|
  {
    if configs == [] then d
    else Overlay(OverlayAll(d, configs[..|configs| - 1]), configs[|configs| - 1])
  }

  /** The whole effect of a run: its last configuration, and whether XON/XOFF was ever on. */
  lemma {:induction false} RunIsLastOverlay(d: Dcb, configs: seq<SerialConfig>)
    requires configs != []
    ensures var everXon := exists i | 0 <= i < |configs| :: configs[i].flow.xonXoff;
            OverlayAll(d, configs) == Overlay(if everXon then d.(xon := DEFAULT_XON) else d, configs[|configs| - 1])
    decreases |configs|
  {
    var n := |configs| - 1;
    var init := configs[..n];
    if n > 0 {
      RunIsLastOverlay(d, init);
      var initXon := exists i | 0 <= i < |init| :: init[i].flow.xonXoff;
      assert initXon <==> exists i | 0 <= i < n :: configs[i].flow.xonXoff by {
        assert forall i | 0 <= i < n :: init[i] == configs[i];
        if i :| 0 <= i < n && configs[i].flow.xonXoff {
          assert init[i].flow.xonXoff;
        }
      }
    } else {
      assert OverlayAll(d, init) == d;
    }
  }

  /** What belongs to the driver survives every run. */
  lemma {:induction false} ReservedSurvive(d: Dcb, configs: seq<SerialConfig>)
    ensures OverlayAll(d, configs).others == d.others
    ensures OverlayAll(d, configs).flags.dummy2 == d.flags.dummy2
    decreases |configs|
  {
    if configs == [] {
    } else {
      ReservedSurvive(d, configs[..|configs| - 1]);
    }
  }

  // ---------------------------------------------------------------------
  // The packed word
  // ---------------------------------------------------------------------

  /** The widths in bits of the packed fields, as powers of two: 1, 1, 1, 1, 2, 1, 1, 1, 1, 1, 1, 2, 1, 17. */
  const SIZES: seq<nat> := [2, 2, 2, 2, 4, 2, 2, 2, 2, 2, 2, 4, 2, 0x2_0000]

  ghost predicate Fit(values: seq<nat>, sizes: seq<nat>) {
    |values| == |sizes| && forall i | 0 <= i < |values| :: values[i] < sizes[i]
  }

  /** Bit fields, lowest first. */
  function Pack(values: seq<nat>, sizes: seq<nat>): nat
    requires |values| == |sizes|
    decreases |values|
  {
    if values == [] then 0 else values[0] + sizes[0] * Pack(values[1..], sizes[1..])
  }

  function Unpack(word: nat, sizes: seq<nat>): (values: seq<nat>)
    requires forall i | 0 <= i < |sizes| :: 0 < sizes[i]
    ensures |values| == |sizes|
    decreases |sizes|
  {
    if sizes == [] then [] else [word % sizes[0]] + Unpack(word / sizes[0], sizes[1..])
  }

  lemma DivMod(low: nat, size: nat, high: nat)
    requires low < size
    ensures (low + size * high) % size == low && (low + size * high) / size == high
  {
    var w := low + size * high;
    SmallMultiple(size, w / size - high, low - w % size);
  }

  lemma SmallMultiple(size: int, k: int, d: int)
    requires size * k == d && -size < d < size
    ensures k == 0
  {
    assert k >= 1 ==> size * k >= size;
    assert k <= -1 ==> size * (-k) >= size;
  }

  lemma {:induction false} UnpackPack(values: seq<nat>, sizes: seq<nat>)
    requires Fit(values, sizes)
    ensures forall i | 0 <= i < |sizes| :: 0 < sizes[i]
    ensures Unpack(Pack(values, sizes), sizes) == values
    decreases |values|
  {
    if values == [] {
    } else {
      UnpackPack(values[1..], sizes[1..]);
      DivMod(values[0], sizes[0], Pack(values[1..], sizes[1..]));
      assert values == [values[0]] + values[1..];
      assert forall i | 0 < i < |sizes| :: sizes[i] == sizes[1..][i - 1];
    }
  }

  function FieldList(f: Flags): (values: seq<nat>)
    ensures |values| == |SIZES|
  {
    [f.binary, f.parity, f.outxCtsFlow, f.outxDsrFlow, f.dtrControl, f.dsrSensitivity, f.txContinueOnXoff,
     f.outX, f.inX, f.useErrorChar, f.dropNull, f.rtsControl, f.abortOnError, f.dummy2]
  }

  function FlagsOf(values: seq<nat>): Flags
    requires |values| == |SIZES|
  {
    Flags(values[0], values[1], values[2], values[3], values[4], values[5], values[6],
          values[7], values[8], values[9], values[10], values[11], values[12], values[13])
  }

  /** The driver gets the flags as one word; every overlay fits it and is read back from it unchanged. */
  lemma FlagsFitTheWord(config: SerialConfig, dummy2: nat)
    requires dummy2 < 0x2_0000
    ensures var f := FlagsFor(config, dummy2);
            && Fit(FieldList(f), SIZES)
            && FlagsOf(Unpack(Pack(FieldList(f), SIZES), SIZES)) == f
  {
    var values := FieldList(FlagsFor(config, dummy2));
    forall i | 0 <= i < |values|
      ensures values[i] < SIZES[i]
    {
    }
    UnpackPack(values, SIZES);
  }

  // ---------------------------------------------------------------------
  // The structure and the device, updated in place
  // ---------------------------------------------------------------------

  class DCB {
    var length: int
    var baudRate: int
    var flags: Flags
    var byteSize: int
    var parity: int
    var stopBits: int
    var xonLim: int
    var xoffLim: int
    var xonChar: int
    var xoffChar: int
    const others: Others

    function Snapshot(): Dcb
      reads this
    {
      Dcb(length, baudRate, flags, byteSize, parity, stopBits, Xon(xonLim, xoffLim, xonChar, xoffChar), others)
    }

    /** `GetCommState` fills the structure. */
    constructor (driver: Dcb)
      ensures Snapshot() == driver
    {
      length, baudRate, flags := driver.length, driver.baudRate, driver.flags;
      byteSize, parity, stopBits := driver.byteSize, driver.parity, driver.stopBits;
      xonLim, xoffLim := driver.xon.xonLim, driver.xon.xoffLim;
      xonChar, xoffChar := driver.xon.xonChar, driver.xon.xoffChar;
      others := driver.others;
    }

    method ApplyConfig(config: SerialConfig)
      modifies this
      ensures Snapshot() == Overlay(old(Snapshot()), config)
    {
      length := DCB_SIZE;
      baudRate := Uint32(config.baudrate);
      byteSize := ByteSizeCode(config.byteSize);
      parity := ParityCode(config.parity);
      stopBits := StopBitsCode(config.stopBits);
      flags := flags.(binary := 1, abortOnError := 0, dropNull := 0, useErrorChar := 0,
                      dsrSensitivity := 0, txContinueOnXoff := 0);
      flags := flags.(parity := if config.parity == NoParity then 0 else 1);
      if config.flow.xonXoff {
        flags := flags.(outX := 1, inX := 1);
        xonChar, xoffChar := XON_CHAR, XOFF_CHAR;
        xonLim, xoffLim := XON_LIM, XOFF_LIM;
      } else {
        flags := flags.(outX := 0, inX := 0);
      }
      if config.flow.rtsCts {
        flags := flags.(outxCtsFlow := 1, rtsControl := CONTROL_HANDSHAKE);
      } else {
        flags := flags.(outxCtsFlow := 0, rtsControl := CONTROL_ENABLE);
      }
      if config.flow.dtrDsr {
        flags := flags.(outxDsrFlow := 1, dtrControl := CONTROL_HANDSHAKE);
      } else {
        flags := flags.(outxDsrFlow := 0, dtrControl := CONTROL_ENABLE);
      }
    }
  }

  /** The backend's last applied configuration, and the driver's structure behind the handle. */
  class WindowsDevice {
    var config: SerialConfig
    var driver: Dcb

    constructor (config: SerialConfig, driver: Dcb)
      ensures this.config == config && this.driver == driver
    {
      this.config, this.driver := config, driver;
    }

    /** Read, overlay, write back. Either system call may fail, and then nothing has changed. */
    method Configure(newConfig: SerialConfig, getOk: bool, setOk: bool) returns (ok: bool)
      modifies this
      ensures ok == (getOk && setOk)
      ensures driver == if ok then Overlay(old(driver), newConfig) else old(driver)
      ensures config == if ok then newConfig else old(config)
    {
      if !getOk {
        return false;
      }
      var dcb := new DCB(driver);
      dcb.ApplyConfig(newConfig);
      if !setOk {
        return false;
      }
      driver := dcb.Snapshot();
      config := newConfig;
      ok := true;
    }
  }
}
