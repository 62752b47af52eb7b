/**
 The termios builders shared by every POSIX backend.

 A flag word is the set of its one bits, so `|`, `&` and `& ~` are union, intersection
 and difference, and no width is assumed. The flag constants come from the platform's
 own header, so they are a value here: `Platform`, with the few facts a header guarantees
 (`Sane`). The results hold for every such platform; Linux's and Darwin's are examples.
*/
module Termios {
  import opened Types

  type Flags = set<nat>

  /** `cmspar` and `rtscts` are empty where the platform has no such bits. */
  datatype Platform = Platform(
    // iflag
    ignbrk: Flags, brkint: Flags, parmrk: Flags, istrip: Flags, inlcr: Flags, igncr: Flags, icrnl: Flags,
    ixon: Flags, ixoff: Flags, ixany: Flags,
    // oflag
    opost: Flags,
    // lflag
    echo: Flags, echonl: Flags, icanon: Flags, isig: Flags, iexten: Flags,
    // cflag
    csize: Flags, cs5: Flags, cs6: Flags, cs7: Flags, cs8: Flags,
    parenb: Flags, parodd: Flags, cmspar: Flags, cstopb: Flags,
    cread: Flags, clocal: Flags, hupcl: Flags, rtscts: Flags,
    // cc
    vmin: nat, vtime: nat)
  {
    /** Distinct fields of a word do not overlap, and the character sizes are four values of one field. */
    predicate Sane() {
      && ControlFieldsApart()
      && cs5 <= csize && cs6 <= csize && cs7 <= csize && cs8 <= csize
      && cs5 != cs6 && cs5 != cs7 && cs5 != cs8 && cs6 != cs7 && cs6 != cs8 && cs7 != cs8
      && parenb != {} && parodd != {} && cstopb != {} && hupcl != {} && ixon != {} && ixoff != {}
      && ixon !! ixoff !! ixany !! RawInput()
      && vmin != vtime
    }

    predicate ControlFieldsApart() {
      csize !! parenb !! parodd !! cmspar !! cstopb !! rtscts !! hupcl !! (cread + clocal)
    }

    /** The input modes that raw mode clears, besides IXON. */
    function RawInput(): Flags {
      ignbrk + brkint + parmrk + istrip + inlcr + igncr + icrnl
    }

    function RawLocal(): Flags {
      echo + echonl + icanon + isig + iexten
    }

    function SizeBits(b: ByteSize): Flags {
      match b
      case Five => cs5
      case Six => cs6
      case Seven => cs7
      case Eight => cs8
    }
  }

  /** The constants of <asm-generic/termbits.h>. */
  const LINUX := Platform(
    {0}, {1}, {3}, {5}, {6}, {7}, {8}, {10}, {12}, {11},
    {0},
    {3}, {6}, {1}, {0}, {15},
    {4, 5}, {}, {4}, {5}, {4, 5}, {8}, {9}, {30}, {6}, {7}, {11}, {10}, {31},
    6, 5)

  /** The constants of Darwin's <sys/termios.h>: no CMSPAR, RTS/CTS split in two bits. */
  const DARWIN := Platform(
    {0}, {1}, {3}, {5}, {6}, {7}, {8}, {9}, {10}, {11},
    {0},
    {3}, {4}, {8}, {7}, {10},
    {8, 9}, {}, {8}, {9}, {8, 9}, {12}, {13}, {}, {10}, {11}, {15}, {14}, {16, 17},
    16, 17)

  lemma LinuxIsSane()
    ensures LINUX.Sane()
  {
    var p := LINUX;
    assert p.ControlFieldsApart() by {
      assert p.csize + p.parenb + p.parodd + p.cmspar + p.cstopb + p.rtscts + p.hupcl == {4, 5, 8, 9, 30, 6, 31, 10};
    }
    assert p.ixon !! p.ixoff !! p.ixany !! p.RawInput() by {
      assert p.RawInput() == {0, 1, 3, 5, 6, 7, 8};
    }
    assert 4 in p.cs6 && 5 in p.cs7 && 4 !in p.cs7 && 5 !in p.cs6 && 4 in p.cs8 && 5 in p.cs8;
    assert 8 in p.parenb && 9 in p.parodd && 6 in p.cstopb && 10 in p.hupcl && 10 in p.ixon && 12 in p.ixoff;
  }

  lemma DarwinIsSane()
    ensures DARWIN.Sane()
  {
    var p := DARWIN;
    assert p.ControlFieldsApart() by {
      assert p.csize + p.parenb + p.parodd + p.cmspar + p.cstopb + p.rtscts + p.hupcl == {8, 9, 12, 13, 10, 16, 17, 14};
    }
    assert p.ixon !! p.ixoff !! p.ixany !! p.RawInput() by {
      assert p.RawInput() == {0, 1, 3, 5, 6, 7, 8};
    }
    assert 8 in p.cs6 && 9 in p.cs7 && 8 !in p.cs7 && 9 !in p.cs6 && 8 in p.cs8 && 9 in p.cs8;
    assert 12 in p.parenb && 13 in p.parodd && 10 in p.cstopb && 14 in p.hupcl && 9 in p.ixon && 10 in p.ixoff;
  }

  // ---------------------------------------------------------------------
  // Attributes and builders
  // ---------------------------------------------------------------------

  /** An entry of the control-character tuple: the standard library hands back both kinds. */
  datatype Cc = Number(value: int) | Text(bytes: seq<Byte>)

  datatype Attrs = Attrs(
    iflag: Flags, oflag: Flags, cflag: Flags, lflag: Flags, ispeed: int, ospeed: int, cc: seq<Cc>)

  datatype Feature = MarkSpaceParity | HalfStopBit | RtsCts | DtrDsr

  datatype Built = Done(attrs: Attrs) | Unsupported(feature: Feature)

  /** Replace the field `m` of the word by `v`: `(x & ~m) | v`. */
  function Put(x: Flags, m: Flags, v: Flags): Flags {
    x - m + v
  }

  function RawMode(p: Platform, a: Attrs): Attrs
    requires p.vmin < |a.cc| && p.vtime < |a.cc|
  {
    a.(iflag := a.iflag - (p.RawInput() + p.ixon),
       oflag := a.oflag - p.opost,
       lflag := a.lflag - p.RawLocal(),
       cflag := a.cflag - (p.csize + p.parenb) + (p.cs8 + p.cread + p.clocal),
       cc := a.cc[p.vmin := Number(1)][p.vtime := Number(0)])
  }

  function ApplyByteSize(p: Platform, a: Attrs, b: ByteSize): Built {
    Done(a.(cflag := a.cflag - p.csize + p.SizeBits(b)))
  }

  function ApplyParity(p: Platform, a: Attrs, parity: Parity): Built {
    var cflag := a.cflag - (p.parenb + p.parodd) - p.cmspar;
    match parity
    case NoParity => Done(a.(cflag := cflag))
    case Even => Done(a.(cflag := cflag + p.parenb))
    case Odd => Done(a.(cflag := cflag + (p.parenb + p.parodd)))
    case Mark =>
      if p.cmspar == {} then Unsupported(MarkSpaceParity)
      else Done(a.(cflag := cflag + (p.parenb + p.parodd + p.cmspar)))
    case Space =>
      if p.cmspar == {} then Unsupported(MarkSpaceParity)
      else Done(a.(cflag := cflag + (p.parenb + p.cmspar)))
  }

  function ApplyStopBits(p: Platform, a: Attrs, s: StopBits): Built {
    match s
    case One => Done(a.(cflag := a.cflag - p.cstopb))
    case Two => Done(a.(cflag := a.cflag + p.cstopb))
    case OnePointFive => Unsupported(HalfStopBit)
  }

  function ApplyFlowControl(p: Platform, a: Attrs, flow: FlowControl): Built {
    var iflag := a.iflag - (p.ixon + p.ixoff + p.ixany);
    var cflag := a.cflag - p.rtscts;
    if flow.rtsCts && p.rtscts == {} then Unsupported(RtsCts)
    else if flow.dtrDsr then Unsupported(DtrDsr)
    else
      Done(a.(iflag := if flow.xonXoff then iflag + (p.ixon + p.ixoff) else iflag,
              cflag := if flow.rtsCts then cflag + p.rtscts else cflag))
  }

  function ApplyHangup(p: Platform, a: Attrs, hangup: bool): Built {
    Done(a.(cflag := if hangup then a.cflag + p.hupcl else a.cflag - p.hupcl))
  }

  /** One call of a builder; the pipeline is a sequence of them after `RawMode`. */
  datatype Builder =
    | SetByteSize(byteSize: ByteSize)
    | SetParity(parity: Parity)
    | SetStopBits(stopBits: StopBits)
    | SetFlow(flow: FlowControl)
    | SetHangup(hangup: bool)

  function Apply(p: Platform, a: Attrs, b: Builder): Built {
    match b
    case SetByteSize(x) => ApplyByteSize(p, a, x)
    case SetParity(x) => ApplyParity(p, a, x)
    case SetStopBits(x) => ApplyStopBits(p, a, x)
    case SetFlow(x) => ApplyFlowControl(p, a, x)
    case SetHangup(x) => ApplyHangup(p, a, x)
  }

  /** The next builder of a pipeline; the first refusal ends it. */
  function Then(p: Platform, r: Built, b: Builder): Built {
    if r.Unsupported? then r else Apply(p, r.attrs, b)
  }

  /** The pipeline of every `_apply_config_to_fd`, after the speeds are set. */
  function Pipeline(p: Platform, a: Attrs, c: SerialConfig): Built
    requires p.vmin < |a.cc| && p.vtime < |a.cc|
  {
    var r1 := ApplyByteSize(p, RawMode(p, a), c.byteSize);
    var r2 := Then(p, r1, SetParity(c.parity));
    var r3 := Then(p, r2, SetStopBits(c.stopBits));
    var r4 := Then(p, r3, SetFlow(c.flow));
    Then(p, r4, SetHangup(c.hangupOnClose))
  }
}
