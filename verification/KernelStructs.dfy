/**
 The two kernel structures packed by hand: `struct serial_rs485` (32 bytes) and
 `struct termios2` (44 bytes), and the conversion of RS-485 delays to milliseconds.
*/
module KernelStructs {
  import opened Types

  type Word = bv32

  /** Native byte order of the machine. */
  datatype ByteOrder = Little | Big

  function WordBytes(order: ByteOrder, x: Word): (b: seq<Byte>)
    ensures |b| == 4
  {
    var b0, b1, b2, b3 :=
      (x & 0xFF) as Byte, ((x >> 8) & 0xFF) as Byte, ((x >> 16) & 0xFF) as Byte, (x >> 24) as Byte;
    if order == Little then [b0, b1, b2, b3] else [b3, b2, b1, b0]
  }

  function Join(b0: Byte, b1: Byte, b2: Byte, b3: Byte): Word {
    (b0 as Word) | ((b1 as Word) << 8) | ((b2 as Word) << 16) | ((b3 as Word) << 24)
  }

  function WordOf(order: ByteOrder, w: seq<Byte>): Word
    requires |w| == 4
  {
    if order == Little then Join(w[0], w[1], w[2], w[3]) else Join(w[3], w[2], w[1], w[0])
  }

  /** The word stored at `at`. */
  function WordAt(order: ByteOrder, b: seq<Byte>, at: nat): Word
    requires at + 4 <= |b|
  {
    WordOf(order, b[at..at + 4])
  }

  lemma SplitJoin(b0: Byte, b1: Byte, b2: Byte, b3: Byte)
    ensures var x := Join(b0, b1, b2, b3);
            && (x & 0xFF) as Byte == b0 && ((x >> 8) & 0xFF) as Byte == b1
            && ((x >> 16) & 0xFF) as Byte == b2 && (x >> 24) as Byte == b3
  {
  }

  lemma JoinSplit(x: Word)
    ensures Join((x & 0xFF) as Byte, ((x >> 8) & 0xFF) as Byte, ((x >> 16) & 0xFF) as Byte, (x >> 24) as Byte) == x
  {
  }

  /** The bytes of a word, most significant last or first. */
  lemma ByteOrders()
    ensures WordBytes(Little, 0x0403_0201) == [1, 2, 3, 4]
    ensures WordBytes(Big, 0x0403_0201) == [4, 3, 2, 1]
  {
  }

  lemma WordRoundTrip(order: ByteOrder, x: Word)
    ensures WordOf(order, WordBytes(order, x)) == x
  {
    JoinSplit(x);
  }

  lemma BytesRoundTrip(order: ByteOrder, w: seq<Byte>)
    requires |w| == 4
    ensures WordBytes(order, WordOf(order, w)) == w
  {
    if order == Little {
      SplitJoin(w[0], w[1], w[2], w[3]);
    } else {
      SplitJoin(w[3], w[2], w[1], w[0]);
    }
  }

  lemma OneWordInside(order: ByteOrder, whole: seq<Byte>, at: nat, x: Word)
    requires at + 4 <= |whole| && whole[at..at + 4] == WordBytes(order, x)
    ensures WordAt(order, whole, at) == x
  {
    WordRoundTrip(order, x);
  }

  lemma Parts(a: seq<Byte>, b: seq<Byte>, c: seq<Byte>, d: seq<Byte>)
    ensures var whole := a + b + c + d;
            && whole[0..|a|] == a
            && whole[|a|..|a| + |b|] == b
            && whole[|a| + |b|..|a| + |b| + |c|] == c
            && whole[|a| + |b| + |c|..] == d
  {
  }

  function TwoWords(order: ByteOrder, x: Word, y: Word): (b: seq<Byte>)
    ensures |b| == 8
  {
    WordBytes(order, x) + WordBytes(order, y)
  }

  /** Two words stored at `at` in a larger structure are read back from there. */
  lemma TwoWordsInside(order: ByteOrder, whole: seq<Byte>, at: nat, x: Word, y: Word)
    requires at + 8 <= |whole| && whole[at..at + 8] == TwoWords(order, x, y)
    ensures WordAt(order, whole, at) == x && WordAt(order, whole, at + 4) == y
  {
    var both := whole[at..at + 8];
    assert whole[at..at + 4] == both[..4] && whole[at + 4..at + 8] == both[4..];
    OneWordInside(order, whole, at, x);
    OneWordInside(order, whole, at + 4, y);
  }

  lemma TwoWordsFromBytes(order: ByteOrder, b: seq<Byte>, at: nat)
    requires at + 8 <= |b|
    ensures TwoWords(order, WordAt(order, b, at), WordAt(order, b, at + 4)) == b[at..at + 8]
  {
    BytesRoundTrip(order, b[at..at + 4]);
    BytesRoundTrip(order, b[at + 4..at + 8]);
  }

  // ---------------------------------------------------------------------
  // struct serial_rs485
  // ---------------------------------------------------------------------

  const ENABLED: Word := 1
  const RTS_ON_SEND: Word := 2
  const RTS_AFTER_SEND: Word := 4
  const RX_DURING_TX: Word := 16
  const TERMINATE_BUS: Word := 32
  const OWNED: Word := ENABLED | RTS_ON_SEND | RTS_AFTER_SEND | RX_DURING_TX

  const RS485_SIZE := 32

  datatype RS485State = RS485State(
    flags: Word,
    delayBefore: Word,
    delayAfter: Word,
    addrRecv: Byte,
    addrDest: Byte)

  /** `n` zero bytes. */
  function Zeros(n: nat): (b: seq<Byte>)
    ensures |b| == n
    ensures forall i | 0 <= i < n :: b[i] == 0
  {
    if n == 0 then [] else Zeros(n - 1) + [0]
  }

  const PADDING := 18

  function ToBytes(order: ByteOrder, s: RS485State): (b: seq<Byte>)
    ensures |b| == RS485_SIZE
  {
    TwoWords(order, s.flags, s.delayBefore) + WordBytes(order, s.delayAfter)
    + [s.addrRecv, s.addrDest] + Zeros(PADDING)
  }

  /** None stands for the ValueError of a short buffer; trailing bytes are ignored. */
  function FromBytes(order: ByteOrder, b: seq<Byte>): (s: Option<RS485State>)
    ensures s.None? <==> |b| < RS485_SIZE
  {
    if |b| < RS485_SIZE then None
    else
      Some(RS485State(WordAt(order, b, 0), WordAt(order, b, 4), WordAt(order, b, 8), b[12], b[13]))
  }

  /** A future extension of the kernel's structure does not change what is read. */
  lemma TrailingIgnored(order: ByteOrder, b: seq<Byte>, rest: seq<Byte>)
    requires RS485_SIZE <= |b|
    ensures FromBytes(order, b + rest) == FromBytes(order, b)
  {
    var whole := b + rest;
    assert whole[0..4] == b[0..4] && whole[4..8] == b[4..8] && whole[8..12] == b[8..12];
  }

  /** Unpack inverts pack, whatever a newer kernel appends. */
  lemma Rs485RoundTrip(order: ByteOrder, s: RS485State, rest: seq<Byte>)
    ensures FromBytes(order, ToBytes(order, s) + rest) == Some(s)
  {
    TrailingIgnored(order, ToBytes(order, s), rest);
    FieldsOf(order, s);
    TwoWordsInside(order, ToBytes(order, s), 0, s.flags, s.delayBefore);
    OneWordInside(order, ToBytes(order, s), 8, s.delayAfter);
  }

  /** Where the kernel's header puts the fields of the structure. */
  lemma FieldsOf(order: ByteOrder, s: RS485State)
    ensures var b := ToBytes(order, s);
            && b[0..8] == TwoWords(order, s.flags, s.delayBefore)
            && b[8..12] == WordBytes(order, s.delayAfter)
            && b[12] == s.addrRecv && b[13] == s.addrDest
            && b[14..] == Zeros(PADDING)
  {
    var b := ToBytes(order, s);
    Parts(TwoWords(order, s.flags, s.delayBefore), WordBytes(order, s.delayAfter),
          [s.addrRecv, s.addrDest], Zeros(PADDING));
    assert b[12] == b[12..14][0] && b[13] == b[12..14][1];
  }

  /** Pack inverts unpack on the first 32 bytes exactly when the padding is zero. */
  lemma Rs485BytesRoundTrip(order: ByteOrder, b: seq<Byte>)
    requires RS485_SIZE <= |b|
    ensures ToBytes(order, FromBytes(order, b).value) == b[..RS485_SIZE] <==> b[14..RS485_SIZE] == Zeros(PADDING)
  {
    RepackedFront(order, b);
    SameFront(b[..14], Zeros(PADDING), b[14..RS485_SIZE]);
    assert b[..RS485_SIZE] == b[..14] + b[14..RS485_SIZE];
  }

  lemma RepackedFront(order: ByteOrder, b: seq<Byte>)
    requires RS485_SIZE <= |b|
    ensures ToBytes(order, FromBytes(order, b).value) == b[..14] + Zeros(PADDING)
  {
    TwoWordsFromBytes(order, b, 0);
    BytesRoundTrip(order, b[8..12]);
    assert b[..14] == b[0..8] + b[8..12] + [b[12], b[13]];
  }

  lemma SameFront(a: seq<Byte>, b: seq<Byte>, c: seq<Byte>)
    ensures a + b == a + c <==> b == c
  {
    assert (a + b)[|a|..] == b && (a + c)[|a|..] == c;
  }

  // Delays ----------------------------------------------------------------

  const DELAY_MAX := 0xFFFF_FFFF

  /** The built-in `round` on an exact value: to the nearest integer, ties to even. */
  function RoundHalfEven(x: real): int {
    var f := x.Floor;
    var d := x - f as real;
    if d < 0.5 then f else if d > 0.5 then f + 1 else if f % 2 == 0 then f else f + 1
  }

  function SecondsToMs(seconds: real): (ms: int)
    ensures 0 <= ms <= DELAY_MAX
  {
    if seconds <= 0.0 then 0
    else
      var ms := RoundHalfEven(seconds * 1000.0);
      if ms < 0 then 0 else if ms > DELAY_MAX then DELAY_MAX else ms
  }

  function ClampedMs(seconds: real): real {
    var ms := seconds * 1000.0;
    if ms < 0.0 then 0.0 else if ms > DELAY_MAX as real then DELAY_MAX as real else ms
  }

  lemma DelayIsNearest(seconds: real)
    ensures -0.5 <= SecondsToMs(seconds) as real - ClampedMs(seconds) <= 0.5
  {
    var x := seconds * 1000.0;
    var n := RoundHalfEven(x);
    assert -0.5 <= n as real - x <= 0.5;
  }

  lemma RoundMonotone(x: real, y: real)
    requires x <= y
    ensures RoundHalfEven(x) <= RoundHalfEven(y)
  {
    if x.Floor < y.Floor {
      assert RoundHalfEven(x) <= x.Floor + 1 <= y.Floor <= RoundHalfEven(y);
    } else {
      assert x.Floor == y.Floor;
    }
  }

  lemma DelayMonotone(a: real, b: real)
    requires a <= b
    ensures SecondsToMs(a) <= SecondsToMs(b)
  {
    RoundMonotone(a * 1000.0, b * 1000.0);
    if a <= 0.0 {
      assert SecondsToMs(a) == 0;
    }
  }

  /** A delay half-way between two whole milliseconds goes to the even one. */
  lemma TiesToEven(ms: int)
    requires 0 <= ms < DELAY_MAX
    ensures SecondsToMs((ms as real + 0.5) / 1000.0) == if ms % 2 == 0 then ms else ms + 1
  {
    var x := (ms as real + 0.5) / 1000.0;
    assert x * 1000.0 == ms as real + 0.5;
    assert (ms as real + 0.5).Floor == ms;
  }

  /** A whole number of milliseconds in range survives the conversion. */
  lemma DelayExact(ms: int)
    requires 0 <= ms <= DELAY_MAX
    ensures SecondsToMs(ms as real / 1000.0) == ms
  {
    var x := ms as real / 1000.0;
    assert x * 1000.0 == ms as real;
    assert (ms as real).Floor == ms;
  }

  // Merging a request into the driver's state ------------------------------

  function Flag(on: bool, bit: Word): Word {
    if on then bit else 0
  }

  /** None stands for the OverflowError or ValueError of rounding a delay that is not finite. */
  function FromConfig(c: RS485Config): (r: Option<RS485State>)
    ensures r.Some? <==> c.FiniteDelays()
  {
    if !c.FiniteDelays() then None
    else
      Some(RS485State(
        Flag(c.enabled, ENABLED) | Flag(c.rtsOnSend, RTS_ON_SEND) | Flag(c.rtsAfterSend, RTS_AFTER_SEND)
        | Flag(c.rxDuringTx, RX_DURING_TX),
        SecondsToMs(c.delayBeforeSend.seconds) as Word,
        SecondsToMs(c.delayAfterSend.seconds) as Word,
        0,
        0))
  }

  function MergedFlags(flags: Word, encoded: Word): Word {
    (flags & !OWNED) | (encoded & OWNED)
  }

  lemma MergeTwice(flags: Word, e1: Word, e2: Word)
    ensures MergedFlags(MergedFlags(flags, e1), e2) == MergedFlags(flags, e2)
  {
  }

  function WithFlagsFrom(s: RS485State, c: RS485Config): (r: Option<RS485State>)
    ensures r.Some? <==> c.FiniteDelays()
  {
    var encoded := FromConfig(c);
    if encoded.None? then None
    else
      Some(RS485State(
        MergedFlags(s.flags, encoded.value.flags),
        encoded.value.delayBefore,
        encoded.value.delayAfter,
        s.addrRecv,
        s.addrDest))
  }

  /** Which of the four requests a flag word carries. */
  predicate Requests(flags: Word, c: RS485Config) {
    && (flags & 0x01 != 0) == c.enabled
    && (flags & 0x02 != 0) == c.rtsOnSend
    && (flags & 0x04 != 0) == c.rtsAfterSend
    && (flags & 0x10 != 0) == c.rxDuringTx
  }

  lemma MergeKeepsForeign(s: RS485State, c: RS485Config)
    ensures var m := WithFlagsFrom(s, c);
            m.Some? ==>
              && Requests(m.value.flags, c)
              && m.value.flags & !OWNED == s.flags & !OWNED
              && m.value.flags & TERMINATE_BUS == s.flags & TERMINATE_BUS
              && m.value.addrRecv == s.addrRecv && m.value.addrDest == s.addrDest
  {
  }

  /** Each delay goes to its own field, in milliseconds. */
  lemma MergeDelays(s: RS485State, c: RS485Config)
    ensures var m := WithFlagsFrom(s, c);
            m.Some? ==>
              && c.delayBeforeSend.Seconds? && c.delayAfterSend.Seconds?
              && m.value.delayBefore == SecondsToMs(c.delayBeforeSend.seconds) as Word
              && m.value.delayAfter == SecondsToMs(c.delayAfterSend.seconds) as Word
  {
  }

  lemma MergeLastWins(s: RS485State, c1: RS485Config, c2: RS485Config)
    ensures WithFlagsFrom(s, c1).Some? ==> WithFlagsFrom(WithFlagsFrom(s, c1).value, c2) == WithFlagsFrom(s, c2)
  {
    if c1.FiniteDelays() && c2.FiniteDelays() {
      MergeTwice(s.flags, FromConfig(c1).value.flags, FromConfig(c2).value.flags);
    }
  }

  // ---------------------------------------------------------------------
  // struct termios2
  // ---------------------------------------------------------------------

  const NCCS2 := 19
  const TERMIOS2_SIZE := 44

  datatype Termios2 = Termios2(
    iflag: Word,
    oflag: Word,
    cflag: Word,
    lflag: Word,
    line: Byte,
    cc: seq<Byte>,
    ispeed: Word,
    ospeed: Word)

  /** What the format "19s" makes of a byte string: cut, or filled up with zeros. */
  function Fit(cc: seq<Byte>): (r: seq<Byte>)
    ensures |r| == NCCS2
    ensures |cc| == NCCS2 ==> r == cc
  {
    if |cc| >= NCCS2 then cc[..NCCS2] else cc + Zeros(NCCS2 - |cc|)
  }

  function Pack(order: ByteOrder, a: Termios2): (b: seq<Byte>)
    ensures |b| == TERMIOS2_SIZE
  {
    TwoWords(order, a.iflag, a.oflag) + TwoWords(order, a.cflag, a.lflag)
    + ([a.line] + Fit(a.cc)) + TwoWords(order, a.ispeed, a.ospeed)
  }

  function Unpack(order: ByteOrder, b: seq<Byte>): (a: Option<Termios2>)
    ensures a.None? <==> |b| != TERMIOS2_SIZE
    ensures a.Some? ==> |a.value.cc| == NCCS2
  {
    if |b| != TERMIOS2_SIZE then None
    else
      Some(Termios2(
        WordAt(order, b, 0), WordAt(order, b, 4), WordAt(order, b, 8), WordAt(order, b, 12),
        b[16], b[17..36], WordAt(order, b, 36), WordAt(order, b, 40)))
  }

  lemma Termios2RoundTrip(order: ByteOrder, a: Termios2)
    ensures Unpack(order, Pack(order, a)) == Some(a.(cc := Fit(a.cc)))
    ensures |a.cc| == NCCS2 ==> Unpack(order, Pack(order, a)) == Some(a)
  {
    Termios2Fields(order, a);
    TwoWordsInside(order, Pack(order, a), 0, a.iflag, a.oflag);
    TwoWordsInside(order, Pack(order, a), 8, a.cflag, a.lflag);
    TwoWordsInside(order, Pack(order, a), 36, a.ispeed, a.ospeed);
  }

  /** Where the kernel's header puts the fields of the structure. */
  lemma Termios2Fields(order: ByteOrder, a: Termios2)
    ensures var b := Pack(order, a);
            && b[0..8] == TwoWords(order, a.iflag, a.oflag)
            && b[8..16] == TwoWords(order, a.cflag, a.lflag)
            && b[16] == a.line && b[17..36] == Fit(a.cc)
            && b[36..44] == TwoWords(order, a.ispeed, a.ospeed)
  {
    var mid := [a.line] + Fit(a.cc);
    var b := Pack(order, a);
    Parts(TwoWords(order, a.iflag, a.oflag), TwoWords(order, a.cflag, a.lflag), mid,
          TwoWords(order, a.ispeed, a.ospeed));
    assert b[16] == b[16..36][0] == mid[0];
    assert b[17..36] == b[16..36][1..] == mid[1..];
  }

  /** The structure has no padding, so pack inverts unpack on every 44-byte buffer. */
  lemma Termios2BytesRoundTrip(order: ByteOrder, b: seq<Byte>)
    requires |b| == TERMIOS2_SIZE
    ensures Pack(order, Unpack(order, b).value) == b
  {
    var a := Unpack(order, b).value;
    TwoWordsFromBytes(order, b, 0);
    TwoWordsFromBytes(order, b, 8);
    TwoWordsFromBytes(order, b, 36);
    PackPieces(order, a, b[0..8], b[8..16], [b[16]] + b[17..36], b[36..44]);
    FivePieces(b);
  }

  lemma PackPieces(order: ByteOrder, a: Termios2, p: seq<Byte>, q: seq<Byte>, m: seq<Byte>, r: seq<Byte>)
    requires TwoWords(order, a.iflag, a.oflag) == p && TwoWords(order, a.cflag, a.lflag) == q
    requires [a.line] + Fit(a.cc) == m && TwoWords(order, a.ispeed, a.ospeed) == r
    ensures Pack(order, a) == p + q + m + r
  {
  }

  lemma FivePieces(b: seq<Byte>)
    requires |b| == TERMIOS2_SIZE
    ensures b == b[0..8] + b[8..16] + ([b[16]] + b[17..36]) + b[36..44]
  {
  }
}
