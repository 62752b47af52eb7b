/**
 What the builder pipeline computes: a closed form, and from it that the last config
 wins, that foreign bits survive, that the result decodes to the config, and that the
 order of the builders does not matter.
*/
module TermiosTheorems {
  import opened Types
  import opened Termios

  predicate HasSlots(p: Platform, a: Attrs) {
    p.vmin < |a.cc| && p.vtime < |a.cc|
  }

  /** What a platform can express, read off the request. */
  predicate Supported(p: Platform, c: SerialConfig) {
    && ((c.parity == Mark || c.parity == Space) ==> p.cmspar != {})
    && c.stopBits != OnePointFive
    && (c.flow.rtsCts ==> p.rtscts != {})
    && !c.flow.dtrDsr
  }

  // ---------------------------------------------------------------------
  // The closed form: one field replaced in each word
  // ---------------------------------------------------------------------

  function OwnedC(p: Platform): Flags {
    p.csize + p.parenb + p.parodd + p.cmspar + p.cstopb + p.rtscts + p.hupcl + p.cread + p.clocal
  }

  function ParityBits(p: Platform, parity: Parity): Flags {
    match parity
    case NoParity => {}
    case Even => p.parenb
    case Odd => p.parenb + p.parodd
    case Mark => p.parenb + p.parodd + p.cmspar
    case Space => p.parenb + p.cmspar
  }

  /** The control word a config asks for, written down directly. */
  function CodeC(p: Platform, c: SerialConfig): Flags {
    p.SizeBits(c.byteSize) + ParityBits(p, c.parity)
    + (if c.stopBits == Two then p.cstopb else {})
    + (if c.flow.rtsCts then p.rtscts else {})
    + (if c.hangupOnClose then p.hupcl else {})
    + p.cread + p.clocal
  }

  function OwnedI(p: Platform): Flags {
    p.RawInput() + p.ixon + p.ixoff + p.ixany
  }

  function CodeI(p: Platform, c: SerialConfig): Flags {
    if c.flow.xonXoff then p.ixon + p.ixoff else {}
  }

  function Wanted(p: Platform, a: Attrs, c: SerialConfig): Attrs
    requires HasSlots(p, a)
  {
    Attrs(
      Put(a.iflag, OwnedI(p), CodeI(p, c)),
      Put(a.oflag, p.opost, {}),
      Put(a.cflag, OwnedC(p), CodeC(p, c)),
      Put(a.lflag, p.RawLocal(), {}),
      a.ispeed,
      a.ospeed,
      a.cc[p.vmin := Number(1)][p.vtime := Number(0)])
  }

  /** The control word after all five builders, as the code computes it. */
  function ChainC(p: Platform, x: Flags, c: SerialConfig): Flags {
    var x1 := x - (p.csize + p.parenb) + (p.cs8 + p.cread + p.clocal);
    var x2 := x1 - p.csize + p.SizeBits(c.byteSize);
    var x3 := x2 - (p.parenb + p.parodd) - p.cmspar + ParityBits(p, c.parity);
    var x4 := if c.stopBits == Two then x3 + p.cstopb else x3 - p.cstopb;
    var x5 := if c.flow.rtsCts then x4 - p.rtscts + p.rtscts else x4 - p.rtscts;
    if c.hangupOnClose then x5 + p.hupcl else x5 - p.hupcl
  }

  lemma ChainIsPut(p: Platform, x: Flags, c: SerialConfig)
    requires p.Sane()
    ensures ChainC(p, x, c) == Put(x, OwnedC(p), CodeC(p, c))
  {
    forall b: nat
      ensures b in ChainC(p, x, c) <==> b in Put(x, OwnedC(p), CodeC(p, c))
    {
    }
  }

  lemma InputIsPut(p: Platform, x: Flags, c: SerialConfig)
    ensures var x1 := x - (p.RawInput() + p.ixon) - (p.ixon + p.ixoff + p.ixany);
            (if c.flow.xonXoff then x1 + (p.ixon + p.ixoff) else x1) == Put(x, OwnedI(p), CodeI(p, c))
  {
  }

  /** The pipeline succeeds exactly on supported configs, and then builds the wanted attributes. */
  lemma PipelineIsWanted(p: Platform, a: Attrs, c: SerialConfig)
    requires p.Sane() && HasSlots(p, a)
    ensures Pipeline(p, a, c).Done? <==> Supported(p, c)
    ensures Supported(p, c) ==> Pipeline(p, a, c) == Done(Wanted(p, a, c))
  {
    ChainIsPut(p, a.cflag, c);
    InputIsPut(p, a.iflag, c);
    PipelineRefuses(p, a, c);
    if Supported(p, c) {
      PipelineSteps(p, a, c);
    }
  }

  /** The five applications written out. */
  /** Exactly which requests are refused, and with which feature; the builders' order decides between two. */
  lemma PipelineRefuses(p: Platform, a: Attrs, c: SerialConfig)
    requires HasSlots(p, a)
    ensures Pipeline(p, a, c).Done? <==> Supported(p, c)
    ensures var markSpace := (c.parity == Mark || c.parity == Space) && p.cmspar == {};
            var half := c.stopBits == OnePointFive;
            var rtsCts := c.flow.rtsCts && p.rtscts == {};
            var r := Pipeline(p, a, c);
            && (r == Unsupported(MarkSpaceParity) <==> markSpace)
            && (r == Unsupported(HalfStopBit) <==> half && !markSpace)
            && (r == Unsupported(RtsCts) <==> rtsCts && !half && !markSpace)
            && (r == Unsupported(DtrDsr) <==> c.flow.dtrDsr && !rtsCts && !half && !markSpace)
            && (r.Done? <==> !markSpace && !half && !rtsCts && !c.flow.dtrDsr)
  {
  }

  lemma PipelineSteps(p: Platform, a: Attrs, c: SerialConfig)
    requires HasSlots(p, a) && Supported(p, c)
    ensures Pipeline(p, a, c) == Done(RawMode(p, a).(
                cflag := ChainC(p, a.cflag, c),
                iflag := if c.flow.xonXoff
                         then RawMode(p, a).iflag - (p.ixon + p.ixoff + p.ixany) + (p.ixon + p.ixoff)
                         else RawMode(p, a).iflag - (p.ixon + p.ixoff + p.ixany)))
  {
  }

  // ---------------------------------------------------------------------
  // Last config wins, foreign bits survive
  // ---------------------------------------------------------------------

  lemma CodesAreOwned(p: Platform, c: SerialConfig)
    requires p.Sane()
    ensures CodeC(p, c) <= OwnedC(p) && CodeI(p, c) <= OwnedI(p)
  {
  }

  lemma PutTwice(x: Flags, m: Flags, v: Flags, w: Flags)
    requires v <= m
    ensures Put(Put(x, m, v), m, w) == Put(x, m, w)
  {
  }

  /** Applying c1 and then c2 gives what c2 alone gives, and every bit and slot not owned is kept. */
  lemma LastConfigWins(p: Platform, a: Attrs, c1: SerialConfig, c2: SerialConfig)
    requires p.Sane() && HasSlots(p, a) && Supported(p, c1) && Supported(p, c2)
    ensures var r := Pipeline(p, a, c1);
            && r.Done? && HasSlots(p, r.attrs)
            && Pipeline(p, r.attrs, c2) == Pipeline(p, a, c2)
  {
    PipelineIsWanted(p, a, c1);
    PipelineIsWanted(p, a, c2);
    WantedTwice(p, a, c1, c2);
    PipelineIsWanted(p, Wanted(p, a, c1), c2);
  }

  lemma WantedTwice(p: Platform, a: Attrs, c1: SerialConfig, c2: SerialConfig)
    requires p.Sane() && HasSlots(p, a)
    ensures HasSlots(p, Wanted(p, a, c1))
    ensures Wanted(p, Wanted(p, a, c1), c2) == Wanted(p, a, c2)
  {
    CodesAreOwned(p, c1);
    PutTwice(a.iflag, OwnedI(p), CodeI(p, c1), CodeI(p, c2));
    PutTwice(a.oflag, p.opost, {}, {});
    PutTwice(a.cflag, OwnedC(p), CodeC(p, c1), CodeC(p, c2));
    PutTwice(a.lflag, p.RawLocal(), {}, {});
    assert Wanted(p, Wanted(p, a, c1), c2).cc == Wanted(p, a, c2).cc;
  }

  lemma ForeignBitsSurvive(p: Platform, a: Attrs, c: SerialConfig)
    requires p.Sane() && HasSlots(p, a) && Supported(p, c)
    ensures var r := Pipeline(p, a, c).attrs;
            && r.iflag - OwnedI(p) == a.iflag - OwnedI(p)
            && r.oflag - p.opost == a.oflag - p.opost
            && r.cflag - OwnedC(p) == a.cflag - OwnedC(p)
            && r.lflag - p.RawLocal() == a.lflag - p.RawLocal()
            && r.ispeed == a.ispeed && r.ospeed == a.ospeed
            && |r.cc| == |a.cc|
            && (forall i | 0 <= i < |a.cc| && i != p.vmin && i != p.vtime :: r.cc[i] == a.cc[i])
            && r.cc[p.vmin] == Number(1) && r.cc[p.vtime] == Number(0)
  {
    PipelineIsWanted(p, a, c);
    CodesAreOwned(p, c);
  }

  // ---------------------------------------------------------------------
  // Decoding
  // ---------------------------------------------------------------------

  datatype Decoded = Decoded(
    byteSize: ByteSize, parity: Parity, stopBits: StopBits, xonXoff: bool, rtsCts: bool, hangup: bool)

  function DecodeSize(p: Platform, cflag: Flags): ByteSize {
    var size := cflag * p.csize;
    if size == p.cs5 then Five else if size == p.cs6 then Six else if size == p.cs7 then Seven else Eight
  }

  function DecodeParity(p: Platform, cflag: Flags): Parity {
    var odd := cflag * p.parodd != {};
    if cflag * p.parenb == {} then NoParity
    else if cflag * p.cmspar != {} then (if odd then Mark else Space)
    else if odd then Odd else Even
  }

  /** Read a configuration off the words, field by field, without knowing who wrote them. */
  function Decode(p: Platform, a: Attrs): Decoded {
    Decoded(
      DecodeSize(p, a.cflag),
      DecodeParity(p, a.cflag),
      if a.cflag * p.cstopb != {} then Two else One,
      p.ixon + p.ixoff <= a.iflag,
      a.cflag * p.rtscts != {},
      a.cflag * p.hupcl != {})
  }

  /** A field of a word one of whose parts was replaced. */
  lemma FieldOfPut(x: Flags, m: Flags, v: Flags, field: Flags)
    requires field <= m
    ensures Put(x, m, v) * field == v * field
  {
  }

  lemma CodeFields(p: Platform, c: SerialConfig)
    requires p.Sane()
    ensures CodeC(p, c) * p.csize == p.SizeBits(c.byteSize)
    ensures CodeC(p, c) * p.parenb == (if c.parity == NoParity then {} else p.parenb)
    ensures CodeC(p, c) * p.parodd == (if c.parity == Odd || c.parity == Mark then p.parodd else {})
    ensures CodeC(p, c) * p.cmspar == (if c.parity == Mark || c.parity == Space then p.cmspar else {})
    ensures CodeC(p, c) * p.cstopb == (if c.stopBits == Two then p.cstopb else {})
    ensures CodeC(p, c) * p.rtscts == (if c.flow.rtsCts then p.rtscts else {})
    ensures CodeC(p, c) * p.hupcl == (if c.hangupOnClose then p.hupcl else {})
  {
  }

  lemma ControlFields(p: Platform, x: Flags, c: SerialConfig)
    requires p.Sane()
    ensures var w := Put(x, OwnedC(p), CodeC(p, c));
            && w * p.csize == p.SizeBits(c.byteSize)
            && w * p.parenb == (if c.parity == NoParity then {} else p.parenb)
            && w * p.parodd == (if c.parity == Odd || c.parity == Mark then p.parodd else {})
            && w * p.cmspar == (if c.parity == Mark || c.parity == Space then p.cmspar else {})
            && w * p.cstopb == (if c.stopBits == Two then p.cstopb else {})
            && w * p.rtscts == (if c.flow.rtsCts then p.rtscts else {})
            && w * p.hupcl == (if c.hangupOnClose then p.hupcl else {})
  {
    CodeFields(p, c);
    FieldOfPut(x, OwnedC(p), CodeC(p, c), p.csize);
    FieldOfPut(x, OwnedC(p), CodeC(p, c), p.parenb);
    FieldOfPut(x, OwnedC(p), CodeC(p, c), p.parodd);
    FieldOfPut(x, OwnedC(p), CodeC(p, c), p.cmspar);
    FieldOfPut(x, OwnedC(p), CodeC(p, c), p.cstopb);
    FieldOfPut(x, OwnedC(p), CodeC(p, c), p.rtscts);
    FieldOfPut(x, OwnedC(p), CodeC(p, c), p.hupcl);
  }

  /** Whatever was there before, the result decodes to the config that was asked for. */
  lemma DecodesToConfig(p: Platform, a: Attrs, c: SerialConfig)
    requires p.Sane() && HasSlots(p, a) && Supported(p, c)
    ensures Decode(p, Pipeline(p, a, c).attrs)
            == Decoded(c.byteSize, c.parity, c.stopBits, c.flow.xonXoff, c.flow.rtsCts, c.hangupOnClose)
  {
    PipelineIsWanted(p, a, c);
    var w := Wanted(p, a, c);
    ControlFields(p, a.cflag, c);
    InputDecodes(p, a, c);
    assert DecodeSize(p, w.cflag) == c.byteSize;
    assert DecodeParity(p, w.cflag) == c.parity;
  }

  lemma InputDecodes(p: Platform, a: Attrs, c: SerialConfig)
    requires p.Sane()
    ensures p.ixon + p.ixoff <= Put(a.iflag, OwnedI(p), CodeI(p, c)) <==> c.flow.xonXoff
  {
    if !c.flow.xonXoff {
      var b :| b in p.ixon;
      assert b in OwnedI(p) && b in p.ixon + p.ixoff;
    }
  }

  // ---------------------------------------------------------------------
  // Field by field
  // ---------------------------------------------------------------------

  /** A field is set as a whole, or cleared as a whole. */
  predicate Whole(word: Flags, field: Flags, on: bool) {
    word * field == if on then field else {}
  }

  /** Canonical mode, echo, signals, input mapping and output processing are off. */
  lemma RawModeIsReached(p: Platform, a: Attrs, c: SerialConfig)
    requires p.Sane() && HasSlots(p, a) && Supported(p, c)
    ensures var r := Pipeline(p, a, c).attrs;
            && r.lflag !! p.echo && r.lflag !! p.echonl && r.lflag !! p.icanon && r.lflag !! p.isig && r.lflag !! p.iexten
            && r.iflag !! p.ignbrk && r.iflag !! p.brkint && r.iflag !! p.parmrk && r.iflag !! p.istrip
            && r.iflag !! p.inlcr && r.iflag !! p.igncr && r.iflag !! p.icrnl && r.iflag !! p.ixany
            && r.oflag !! p.opost
            && Whole(r.iflag, p.ixon, c.flow.xonXoff) && Whole(r.iflag, p.ixoff, c.flow.xonXoff)
  {
    PipelineIsWanted(p, a, c);
  }

  /** Every field of the control word is what the config asks for, as a whole. */
  lemma ControlIsWhole(p: Platform, a: Attrs, c: SerialConfig)
    requires p.Sane() && HasSlots(p, a) && Supported(p, c)
    ensures var w := Pipeline(p, a, c).attrs.cflag;
            && w * p.csize == (match c.byteSize case Five => p.cs5 case Six => p.cs6 case Seven => p.cs7 case Eight => p.cs8)
            && Whole(w, p.parenb, c.parity != NoParity)
            && Whole(w, p.parodd, c.parity == Odd || c.parity == Mark)
            && Whole(w, p.cmspar, c.parity == Mark || c.parity == Space)
            && Whole(w, p.cstopb, c.stopBits == Two)
            && Whole(w, p.rtscts, c.flow.rtsCts)
            && Whole(w, p.hupcl, c.hangupOnClose)
            && p.cread <= w && p.clocal <= w
  {
    PipelineIsWanted(p, a, c);
    ControlFields(p, a.cflag, c);
  }

  /** Every bit outside the named fields is kept. */
  lemma OtherBitsAreKept(p: Platform, a: Attrs, c: SerialConfig)
    requires p.Sane() && HasSlots(p, a) && Supported(p, c)
    ensures var r := Pipeline(p, a, c).attrs;
            && (forall b | b !in p.echo + p.echonl + p.icanon + p.isig + p.iexten :: b in r.lflag <==> b in a.lflag)
            && (forall b | b !in p.ignbrk + p.brkint + p.parmrk + p.istrip + p.inlcr + p.igncr + p.icrnl
                                 + p.ixon + p.ixoff + p.ixany :: b in r.iflag <==> b in a.iflag)
            && (forall b | b !in p.opost :: b in r.oflag <==> b in a.oflag)
            && (forall b | b !in p.csize + p.parenb + p.parodd + p.cmspar + p.cstopb + p.rtscts + p.hupcl
                                 + p.cread + p.clocal :: b in r.cflag <==> b in a.cflag)
  {
    PipelineIsWanted(p, a, c);
    CodesAreOwned(p, c);
  }

  // ---------------------------------------------------------------------
  // The order of the five builders
  // ---------------------------------------------------------------------

  predicate SameKind(b1: Builder, b2: Builder) {
    || (b1.SetByteSize? && b2.SetByteSize?)
    || (b1.SetParity? && b2.SetParity?)
    || (b1.SetStopBits? && b2.SetStopBits?)
    || (b1.SetFlow? && b2.SetFlow?)
    || (b1.SetHangup? && b2.SetHangup?)
  }

  /** Two results that agree, up to which of two refusals was reported. */
  predicate Agree(r1: Built, r2: Built) {
    r1 == r2 || (r1.Unsupported? && r2.Unsupported?)
  }

  /** The control-word field a builder owns, and what it writes there. */
  function FieldOf(p: Platform, b: Builder): Flags {
    match b
    case SetByteSize(_) => p.csize
    case SetParity(_) => p.parenb + p.parodd + p.cmspar
    case SetStopBits(_) => p.cstopb
    case SetFlow(_) => p.rtscts
    case SetHangup(_) => p.hupcl
  }

  function ValueOf(p: Platform, b: Builder): Flags {
    match b
    case SetByteSize(x) => p.SizeBits(x)
    case SetParity(x) => ParityBits(p, x)
    case SetStopBits(x) => if x == Two then p.cstopb else {}
    case SetFlow(x) => if x.rtsCts then p.rtscts else {}
    case SetHangup(x) => if x then p.hupcl else {}
  }

  function InputAfter(p: Platform, x: Flags, b: Builder): Flags {
    if b.SetFlow? then
      x - (p.ixon + p.ixoff + p.ixany) + (if b.flow.xonXoff then p.ixon + p.ixoff else {})
    else x
  }

  predicate Refuses(p: Platform, b: Builder) {
    match b
    case SetParity(x) => (x == Mark || x == Space) && p.cmspar == {}
    case SetStopBits(x) => x == OnePointFive
    case SetFlow(x) => (x.rtsCts && p.rtscts == {}) || x.dtrDsr
    case _ => false
  }

  /** Every builder is one field replacement, or a refusal that depends on its argument alone. */
  lemma ApplyIsPut(p: Platform, a: Attrs, b: Builder)
    requires p.Sane()
    ensures Apply(p, a, b).Unsupported? <==> Refuses(p, b)
    ensures !Refuses(p, b) ==>
              Apply(p, a, b) == Done(a.(cflag := Put(a.cflag, FieldOf(p, b), ValueOf(p, b)),
                                        iflag := InputAfter(p, a.iflag, b)))
    ensures !Refuses(p, b) ==> ValueOf(p, b) <= FieldOf(p, b)
  {
    match b
    case SetByteSize(_) =>
    case SetParity(x) =>
      assert a.cflag - (p.parenb + p.parodd) - p.cmspar == a.cflag - FieldOf(p, b);
      assert !Refuses(p, b) && x == NoParity ==> Put(a.cflag, FieldOf(p, b), {}) == a.cflag - FieldOf(p, b);
    case SetStopBits(_) =>
      assert a.cflag - p.cstopb + p.cstopb == a.cflag + p.cstopb;
      assert a.cflag - p.cstopb + {} == a.cflag - p.cstopb;
    case SetFlow(_) =>
      assert a.cflag - p.rtscts + {} == a.cflag - p.rtscts;
      var x := a.iflag - (p.ixon + p.ixoff + p.ixany);
      assert x + {} == x;
    case SetHangup(_) =>
      assert a.cflag - p.hupcl + p.hupcl == a.cflag + p.hupcl;
      assert a.cflag - p.hupcl + {} == a.cflag - p.hupcl;
  }

  lemma FieldsApart(p: Platform, b1: Builder, b2: Builder)
    requires p.Sane() && !SameKind(b1, b2)
    ensures FieldOf(p, b1) !! FieldOf(p, b2)
  {
  }

  lemma PutsCommute(x: Flags, m: Flags, v: Flags, n: Flags, w: Flags)
    requires m !! n && v <= m && w <= n
    ensures Put(Put(x, m, v), n, w) == Put(Put(x, n, w), m, v)
  {
  }

  /** Any two of the five builders commute, on every attribute set. */
  lemma BuildersCommute(p: Platform, a: Attrs, b1: Builder, b2: Builder)
    requires p.Sane() && !SameKind(b1, b2)
    ensures Agree(Then(p, Apply(p, a, b1), b2), Then(p, Apply(p, a, b2), b1))
  {
    ApplyIsPut(p, a, b1);
    ApplyIsPut(p, a, b2);
    if !Refuses(p, b1) && !Refuses(p, b2) {
      ApplyIsPut(p, Apply(p, a, b1).attrs, b2);
      ApplyIsPut(p, Apply(p, a, b2).attrs, b1);
      FieldsApart(p, b1, b2);
      PutsCommute(a.cflag, FieldOf(p, b1), ValueOf(p, b1), FieldOf(p, b2), ValueOf(p, b2));
    } else {
      if !Refuses(p, b1) { ApplyIsPut(p, Apply(p, a, b1).attrs, b2); }
      if !Refuses(p, b2) { ApplyIsPut(p, Apply(p, a, b2).attrs, b1); }
    }
  }
}
