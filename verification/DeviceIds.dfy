/**
 Windows device IDs: which vendor, product and serial number they name.

 The parsers match the shapes anyserial's regular expressions describe: keywords and hex
 digits in either case, a serial segment of anything but a backslash, nothing demanded of
 what follows. Case is folded as `re.IGNORECASE` folds it where the pattern's letter is
 ASCII: that takes the dotted and the dotless i for I, the long s for S, and the Kelvin
 sign for K.
*/
module DeviceIds {
  import opened Types

  function UpChar(c: char): char {
    if 'a' <= c <= 'z' then (c as int - 32) as char
    else if c == '\U{0130}' || c == '\U{0131}' then 'I'
    else if c == '\U{017F}' then 'S'
    else if c == '\U{212A}' then 'K'
    else c
  }

  function Up(s: string): (u: string)
    ensures |u| == |s| && forall i | 0 <= i < |s| :: u[i] == UpChar(s[i])
  {
    seq(|s|, i requires 0 <= i < |s| => UpChar(s[i]))
  }

  // ---------------------------------------------------------------------
  // Hexadecimal
  // ---------------------------------------------------------------------

  function Digit(c: char): (d: Option<nat>)
    ensures d.Some? ==> d.value < 16
  {
    var u := UpChar(c);
    if '0' <= u <= '9' then Some(u as int - '0' as int)
    else if 'A' <= u <= 'F' then Some(u as int - 'A' as int + 10)
    else None
  }

  function HexChar(d: nat): (c: char)
    requires d < 16
    ensures UpChar(c) == c && Digit(c) == Some(d)
  {
    if d < 10 then ('0' as int + d) as char else ('A' as int + d - 10) as char
  }

  function Hex4(n: nat): (s: string)
    requires n < 0x1_0000
    ensures |s| == 4 && Up(s) == s
  {
    var s := [HexChar(n / 4096), HexChar(n / 256 % 16), HexChar(n / 16 % 16), HexChar(n % 16)];
    assert forall i | 0 <= i < 4 :: UpChar(s[i]) == s[i];
    s
  }

  // ---------------------------------------------------------------------
  // Matching
  // ---------------------------------------------------------------------

  /** What follows the keyword, if `s` starts with it in any case. */
  function After(s: string, keyword: string): (rest: Option<string>)
    ensures rest.Some? ==> |s| >= |keyword| && rest.value == s[|keyword|..]
  {
    if |keyword| <= |s| && Up(s[..|keyword|]) == keyword then Some(s[|keyword|..]) else None
  }

  datatype Number = Number(value: nat, rest: string)

  /** The four hex digits `s` starts with. */
  function Take4(s: string): (r: Option<Number>)
    ensures r.Some? ==> |s| >= 4 && r.value.value < 0x1_0000 && r.value.rest == s[4..]
  {
    if |s| < 4 then None else
    var a, b, c, d := Digit(s[0]), Digit(s[1]), Digit(s[2]), Digit(s[3]);
    if a.Some? && b.Some? && c.Some? && d.Some?
    then Some(Number(a.value * 4096 + b.value * 256 + c.value * 16 + d.value, s[4..]))
    else None
  }

  datatype Ids = Ids(vid: nat, pid: nat, rest: string)

  /** `keyword` four hex digits `joint` four hex digits, at the front of `s`. */
  function TakeIds(s: string, keyword: string, joint: string): Option<Ids> {
    var a := After(s, keyword);
    if a.None? then None else
    var vid := Take4(a.value);
    if vid.None? then None else
    var b := After(vid.value.rest, joint);
    if b.None? then None else
    var pid := Take4(b.value);
    if pid.None? then None else
    Some(Ids(vid.value.value, pid.value.value, pid.value.rest))
  }

  const USB := "USB\\VID_"
  const USB_PID := "&PID_"
  const FTDIBUS := "FTDIBUS\\VID_"
  const FTDI_PID := "+PID_"
  const MI := "&MI_"
  const VID := "VID_"

  /** The optional `&MI_xx` is skipped when it is all there. */
  function SkipInterface(s: string): string {
    if |s| >= 6 && After(s, MI).Some? && Digit(s[4]).Some? && Digit(s[5]).Some? then s[6..] else s
  }

  /** How many characters come before the first backslash. */
  function Run(s: string): (n: nat)
    ensures n <= |s| && (forall i | 0 <= i < n :: s[i] != '\\') && (n < |s| ==> s[n] == '\\')
  {
    if s == [] || s[0] == '\\' then 0 else 1 + Run(s[1..])
  }

  /** The optional `mark` with at least one character that is not a backslash after it. */
  function Segment(s: string, mark: char): Option<string> {
    if s == [] || s[0] != mark then None else
    var n := Run(s[1..]);
    if n == 0 then None else Some(s[1..][..n])
  }

  datatype Device = Device(vid: Option<nat>, pid: Option<nat>, serial: Option<string>)

  const NO_DEVICE := Device(None, None, None)

  function UsbSerialNumber(segment: Option<string>): Option<string> {
    if segment.None? || segment.value == [] || '&' in segment.value then None else segment
  }

  /** The port letter FTDI's driver appends is dropped. */
  function FtdiSerialNumber(segment: Option<string>): Option<string> {
    if segment.None? || segment.value == [] || '&' in segment.value then None else
    var n := |segment.value|;
    if n > 1 && 'A' <= segment.value[n - 1] <= 'Z' then Some(segment.value[..n - 1]) else segment
  }

  function ParseInstanceId(id: Option<string>): Device {
    if id.None? then NO_DEVICE else
    var usb := TakeIds(id.value, USB, USB_PID);
    if usb.Some? then
      Device(Some(usb.value.vid), Some(usb.value.pid),
             UsbSerialNumber(Segment(SkipInterface(usb.value.rest), '\\')))
    else
      var ftdi := TakeIds(id.value, FTDIBUS, FTDI_PID);
      if ftdi.Some? then
        Device(Some(ftdi.value.vid), Some(ftdi.value.pid), FtdiSerialNumber(Segment(ftdi.value.rest, '+')))
      else NO_DEVICE
  }

  /** `VID_xxxx` and `PID_xxxx` joined by `&` or `+`, at the front of `s`. */
  function HardwareIdsAt(s: string): Option<Ids> {
    var r := TakeIds(s, VID, USB_PID);
    if r.Some? then r else TakeIds(s, VID, FTDI_PID)
  }

  /** The leftmost place that names both. */
  function SearchHardware(s: string): Option<Ids> {
    var here := HardwareIdsAt(s);
    if here.Some? || s == [] then here else SearchHardware(s[1..])
  }

  function ParseHardwareId(id: Option<string>): (Option<nat>, Option<nat>) {
    if id.None? then (None, None) else
    var r := SearchHardware(id.value);
    if r.Some? then (Some(r.value.vid), Some(r.value.pid)) else (None, None)
  }

  function ParseDeviceIds(instanceId: Option<string>, hardwareId: Option<string>): Device {
    var d := ParseInstanceId(instanceId);
    if d.vid.Some? then d else
    var (vid, pid) := ParseHardwareId(hardwareId);
    Device(vid, pid, None)
  }

  // ---------------------------------------------------------------------
  // Printed and parsed
  // ---------------------------------------------------------------------

  lemma AfterSpelled(spelled: string, keyword: string, rest: string)
    requires Up(spelled) == keyword
    ensures After(spelled + rest, keyword) == Some(rest)
  {
    assert (spelled + rest)[..|keyword|] == spelled;
    assert (spelled + rest)[|keyword|..] == rest;
  }

  /** Four digits in base sixteen, most significant first. */
  lemma FourDigits(n: nat)
    requires n < 0x1_0000
    ensures n == n / 4096 * 4096 + n / 256 % 16 * 256 + n / 16 % 16 * 16 + n % 16
  {
    assert n / 256 == n / 4096 * 16 + n / 256 % 16;
    assert n / 16 == n / 256 * 16 + n / 16 % 16;
  }

  lemma DigitOfUp(c: char)
    ensures Digit(UpChar(c)) == Digit(c)
  {
  }

  lemma Take4Spelled(spelled: string, n: nat, rest: string)
    requires n < 0x1_0000 && Up(spelled) == Hex4(n)
    ensures Take4(spelled + rest) == Some(Number(n, rest))
  {
    var s := spelled + rest;
    assert s[4..] == rest;
    DigitOfUp(s[0]);
    DigitOfUp(s[1]);
    DigitOfUp(s[2]);
    DigitOfUp(s[3]);
    assert UpChar(s[0]) == Hex4(n)[0] && UpChar(s[1]) == Hex4(n)[1];
    assert UpChar(s[2]) == Hex4(n)[2] && UpChar(s[3]) == Hex4(n)[3];
    FourDigits(n);
  }

  function Heading(keyword: string, joint: string, vid: nat, pid: nat): string
    requires vid < 0x1_0000 && pid < 0x1_0000
  {
    keyword + Hex4(vid) + joint + Hex4(pid)
  }

  lemma UpSlice(s: string, i: nat, j: nat)
    requires i <= j <= |s|
    ensures Up(s[i..j]) == Up(s)[i..j]
  {
  }

  /** Any spelling of a heading, in upper, lower or mixed case, is taken apart again. */
  lemma HeadingSpelled(spelled: string, keyword: string, joint: string, vid: nat, pid: nat, rest: string)
    requires vid < 0x1_0000 && pid < 0x1_0000
    requires Up(spelled) == Heading(keyword, joint, vid, pid)
    ensures TakeIds(spelled + rest, keyword, joint) == Some(Ids(vid, pid, rest))
  {
    var s1, s2, s3, s4 := HeadingParts(spelled, keyword, joint, vid, pid);
    AfterSpelled(s1, keyword, s2 + (s3 + (s4 + rest)));
    Take4Spelled(s2, vid, s3 + (s4 + rest));
    AfterSpelled(s3, joint, s4 + rest);
    Take4Spelled(s4, pid, rest);
    Regroup(s1, s2, s3, s4, rest);
  }

  lemma Regroup(s1: string, s2: string, s3: string, s4: string, rest: string)
    ensures s1 + (s2 + (s3 + s4)) + rest == s1 + (s2 + (s3 + (s4 + rest)))
  {
  }

  lemma HeadingParts(spelled: string, keyword: string, joint: string, vid: nat, pid: nat)
    returns (s1: string, s2: string, s3: string, s4: string)
    requires vid < 0x1_0000 && pid < 0x1_0000
    requires Up(spelled) == Heading(keyword, joint, vid, pid)
    ensures spelled == s1 + (s2 + (s3 + s4))
    ensures Up(s1) == keyword && Up(s2) == Hex4(vid) && Up(s3) == joint && Up(s4) == Hex4(pid)
  {
    var u2, u3, u4 := Hex4(vid), joint, Hex4(pid);
    assert Up(spelled) == keyword + (u2 + (u3 + u4));
    var rest2, rest3;
    s1, rest2 := SplitUp(spelled, keyword, u2 + (u3 + u4));
    s2, rest3 := SplitUp(rest2, u2, u3 + u4);
    s3, s4 := SplitUp(rest3, u3, u4);
  }

  lemma SplitUp(s: string, u: string, v: string) returns (a: string, b: string)
    requires Up(s) == u + v
    ensures s == a + b && Up(a) == u && Up(b) == v
  {
    a, b := s[..|u|], s[|u|..];
    UpSlice(s, 0, |u|);
    UpSlice(s, |u|, |s|);
    assert Up(s)[0..|u|] == u && Up(s)[|u|..|s|] == v;
    assert s[0..|u|] == a && s[|u|..|s|] == b;
  }

  lemma FromDigits(a: nat, b: nat, c: nat, d: nat)
    requires a < 16 && b < 16 && c < 16 && d < 16
    ensures var n := a * 4096 + b * 256 + c * 16 + d;
            n / 4096 == a && n / 256 % 16 == b && n / 16 % 16 == c && n % 16 == d
  {
    var n := a * 4096 + b * 256 + c * 16 + d;
    assert n / 256 == a * 16 + b;
    assert n / 16 == a * 256 + b * 16 + c;
  }

  lemma DigitIsHexChar(c: char)
    requires Digit(c).Some?
    ensures UpChar(c) == HexChar(Digit(c).value)
  {
  }

  lemma Take4IsHex(s: string)
    requires Take4(s).Some?
    ensures Up(s[..4]) == Hex4(Take4(s).value.value)
  {
    var n := Take4(s).value.value;
    var a, b, c, d := Digit(s[0]).value, Digit(s[1]).value, Digit(s[2]).value, Digit(s[3]).value;
    FromDigits(a, b, c, d);
    DigitIsHexChar(s[0]);
    DigitIsHexChar(s[1]);
    DigitIsHexChar(s[2]);
    DigitIsHexChar(s[3]);
  }

  /** Nothing else is taken for a heading: what parses is a spelling of the heading it is parsed as. */
  lemma OnlyHeadingsParse(s: string, keyword: string, joint: string)
    requires TakeIds(s, keyword, joint).Some?
    ensures var r := TakeIds(s, keyword, joint).value;
            var n := |keyword| + |joint| + 8;
            && r.vid < 0x1_0000 && r.pid < 0x1_0000 && n <= |s|
            && Up(s[..n]) == Heading(keyword, joint, r.vid, r.pid)
            && r.rest == s[n..]
  {
    var r := TakeIds(s, keyword, joint).value;
    var k, j := |keyword|, |joint|;
    var s1 := s[k..];
    var s2 := s1[4..];
    var s3 := s2[j..];
    assert s2 == s[k + 4..] && s3 == s[k + 4 + j..] && s3[4..] == s[k + j + 8..];
    Cut(s, k, 4);
    Take4IsHex(s1);
    assert Up(s[..k + 4]) == keyword + Hex4(r.vid);
    Cut(s, k + 4, j);
    assert Up(s[..k + 4 + j]) == keyword + Hex4(r.vid) + joint;
    Cut(s, k + 4 + j, 4);
    Take4IsHex(s3);
    assert k + 4 + j + 4 == k + j + 8;
  }

  /** Upper-casing goes piece by piece. */
  lemma Cut(s: string, i: nat, n: nat)
    requires i + n <= |s|
    ensures Up(s[..i + n]) == Up(s[..i]) + Up(s[i..][..n])
  {
    assert s[..i + n] == s[..i] + s[i..][..n];
    UpConcat(s[..i], s[i..][..n]);
  }

  lemma UpConcat(s: string, t: string)
    ensures Up(s + t) == Up(s) + Up(t)
  {
  }

  /** A serial segment, and then nothing or a backslash. */
  lemma {:induction false} RunOf(serial: string, tail: string)
    requires '\\' !in serial && (tail == [] || tail[0] == '\\')
    ensures Run(serial + tail) == |serial|
  {
    if serial == [] {
      assert serial + tail == tail;
    } else {
      RunOf(serial[1..], tail);
      assert (serial + tail)[1..] == serial[1..] + tail;
    }
  }

  lemma SegmentOf(mark: char, serial: string, tail: string)
    requires serial != [] && '\\' !in serial && (tail == [] || tail[0] == '\\')
    ensures Segment([mark] + serial + tail, mark) == Some(serial)
  {
    var s := [mark] + serial + tail;
    RunOf(serial, tail);
    assert s[1..] == serial + tail;
    assert (serial + tail)[..|serial|] == serial;
  }

  /** `&MI_` and two hex digits, in any case; or nothing. */
  predicate IsInterface(mi: string) {
    mi == [] || (|mi| == 6 && Up(mi[..4]) == MI && Digit(mi[4]).Some? && Digit(mi[5]).Some?)
  }

  lemma InterfaceSkipped(mi: string, rest: string)
    requires IsInterface(mi) && (rest == [] || rest[0] == '\\')
    ensures SkipInterface(mi + rest) == rest
  {
    var s := mi + rest;
    if mi == [] {
      assert s == rest;
      assert |s| >= 4 ==> Up(s[..4])[0] == UpChar(s[0]);
    } else {
      assert s[..4] == mi[..4] && s[4] == mi[4] && s[5] == mi[5] && s[6..] == rest;
    }
  }

  /** A printed USB instance ID gives back exactly what was printed; a made-up serial gives none. */
  lemma UsbRoundTrip(spelled: string, vid: nat, pid: nat, mi: string, serial: string, tail: string)
    requires vid < 0x1_0000 && pid < 0x1_0000 && Up(spelled) == Heading(USB, USB_PID, vid, pid)
    requires IsInterface(mi) && serial != [] && '\\' !in serial && (tail == [] || tail[0] == '\\')
    ensures ParseInstanceId(Some(spelled + (mi + ("\\" + serial + tail))))
            == Device(Some(vid), Some(pid), if '&' in serial then None else Some(serial))
  {
    var last := "\\" + serial + tail;
    HeadingSpelled(spelled, USB, USB_PID, vid, pid, mi + last);
    InterfaceSkipped(mi, last);
    SegmentOf('\\', serial, tail);
  }

  /** No name starts both ways. */
  lemma NotBoth(s: string)
    requires After(s, FTDIBUS).Some?
    ensures After(s, USB).None?
  {
    assert Up(s[..|FTDIBUS|])[0] == UpChar(s[0]);
    assert Up(s[..|USB|])[0] == UpChar(s[0]);
  }

  /** A printed FTDIBUS instance ID gives the serial number back without the port letter. */
  lemma FtdiRoundTrip(spelled: string, vid: nat, pid: nat, serial: string, letter: char, tail: string)
    requires vid < 0x1_0000 && pid < 0x1_0000 && Up(spelled) == Heading(FTDIBUS, FTDI_PID, vid, pid)
    requires serial != [] && '\\' !in serial && '&' !in serial && 'A' <= letter <= 'Z'
    requires tail == [] || tail[0] == '\\'
    ensures ParseInstanceId(Some(spelled + ("+" + (serial + [letter]) + tail)))
            == Device(Some(vid), Some(pid), Some(serial))
  {
    var segment := serial + [letter];
    var last := "+" + segment + tail;
    HeadingSpelled(spelled, FTDIBUS, FTDI_PID, vid, pid, last);
    NotBoth(spelled + last);
    SegmentOf('+', segment, tail);
    assert segment[..|segment| - 1] == serial;
  }

  /** Any other FTDIBUS segment is the serial number as it stands; one with an ampersand is none. */
  lemma FtdiOtherSegments(spelled: string, vid: nat, pid: nat, segment: string, tail: string)
    requires vid < 0x1_0000 && pid < 0x1_0000 && Up(spelled) == Heading(FTDIBUS, FTDI_PID, vid, pid)
    requires segment != [] && '\\' !in segment && (tail == [] || tail[0] == '\\')
    requires |segment| == 1 || '&' in segment || !('A' <= segment[|segment| - 1] <= 'Z')
    ensures ParseInstanceId(Some(spelled + ("+" + segment + tail)))
            == Device(Some(vid), Some(pid), if '&' in segment then None else Some(segment))
  {
    HeadingSpelled(spelled, FTDIBUS, FTDI_PID, vid, pid, "+" + segment + tail);
    NotBoth(spelled + ("+" + segment + tail));
    SegmentOf('+', segment, tail);
  }

  /** After the USB heading, and an interface that is all there, anything but a backslash and a character gives no serial. */
  lemma UsbWithoutSegment(spelled: string, vid: nat, pid: nat, rest: string)
    requires vid < 0x1_0000 && pid < 0x1_0000 && Up(spelled) == Heading(USB, USB_PID, vid, pid)
    requires rest == [] || (rest[0] != '\\' && !(|rest| >= 6 && IsInterface(rest[..6]))) || rest == "\\"
    ensures ParseInstanceId(Some(spelled + rest)) == Device(Some(vid), Some(pid), None)
  {
    HeadingSpelled(spelled, USB, USB_PID, vid, pid, rest);
    if |rest| >= 6 {
      assert rest[..6][..4] == rest[..4];
    }
  }

  /** An instance ID names a device exactly when it starts with a spelling of one of the two headings. */
  lemma NamesADevice(id: string)
    ensures ParseInstanceId(Some(id)).vid.Some? <==>
              StartsAsSome(id, USB, USB_PID) || StartsAsSome(id, FTDIBUS, FTDI_PID)
  {
    HeadingParses(id, USB, USB_PID);
    HeadingParses(id, FTDIBUS, FTDI_PID);
  }

  ghost predicate StartsAsSome(s: string, keyword: string, joint: string) {
    exists vid: nat, pid: nat | vid < 0x1_0000 && pid < 0x1_0000 :: StartsAs(s, Heading(keyword, joint, vid, pid))
  }

  lemma HeadingParses(s: string, keyword: string, joint: string)
    ensures TakeIds(s, keyword, joint).Some? <==> StartsAsSome(s, keyword, joint)
  {
    if TakeIds(s, keyword, joint).Some? {
      OnlyHeadingsParse(s, keyword, joint);
      var r := TakeIds(s, keyword, joint).value;
      assert StartsAs(s, Heading(keyword, joint, r.vid, r.pid));
    }
    if StartsAsSome(s, keyword, joint) {
      var vid: nat, pid: nat :| vid < 0x1_0000 && pid < 0x1_0000 && StartsAs(s, Heading(keyword, joint, vid, pid));
      HeadingStarts(s, keyword, joint, vid, pid);
    }
  }

  ghost predicate StartsAs(s: string, heading: string) {
    |heading| <= |s| && Up(s[..|heading|]) == heading
  }

  lemma HeadingStarts(s: string, keyword: string, joint: string, vid: nat, pid: nat)
    requires vid < 0x1_0000 && pid < 0x1_0000 && StartsAs(s, Heading(keyword, joint, vid, pid))
    ensures TakeIds(s, keyword, joint).Some?
  {
    var n := |Heading(keyword, joint, vid, pid)|;
    var spelled, rest := s[..n], s[n..];
    assert spelled + rest == s;
    HeadingSpelled(spelled, keyword, joint, vid, pid, rest);
  }

  /** The search stops at the leftmost place that matches, and finds none only if there is none. */
  lemma {:induction false} SearchIsLeftmost(s: string) returns (at: nat)
    ensures at <= |s| && SearchHardware(s) == HardwareIdsAt(s[at..])
    ensures forall i | 0 <= i < at :: HardwareIdsAt(s[i..]).None?
    ensures SearchHardware(s).None? ==> at == |s|
  {
    if HardwareIdsAt(s).Some? || s == [] {
      at := 0;
      assert s[0..] == s;
    } else {
      var tail := SearchIsLeftmost(s[1..]);
      at := tail + 1;
      assert s[at..] == s[1..][tail..];
      forall i | 0 <= i < at
        ensures HardwareIdsAt(s[i..]).None?
      {
        if i == 0 {
          assert s[0..] == s;
        } else {
          assert s[i..] == s[1..][i - 1..];
        }
      }
    }
  }

  /**
   An instance ID that starts as one of the two headings decides alone; otherwise vendor
   and product are the hardware ID's. A serial number comes from such a heading only.
  */
  lemma HardwareOnlyAsFallback(instanceId: Option<string>, hardwareId: Option<string>, other: Option<string>)
    ensures var headed := instanceId.Some?
              && (StartsAsSome(instanceId.value, USB, USB_PID) || StartsAsSome(instanceId.value, FTDIBUS, FTDI_PID));
            var d := ParseDeviceIds(instanceId, hardwareId);
            && (headed ==> d == ParseDeviceIds(instanceId, other) && d.vid.Some? && d.pid.Some?)
            && (!headed ==> (d.vid, d.pid) == ParseHardwareId(hardwareId))
            && (d.serial.Some? ==> headed)
  {
    if instanceId.Some? {
      NamesADevice(instanceId.value);
    }
  }

  /** The search passes over places that do not match. */
  lemma {:induction false} SearchSkips(s: string, at: nat)
    requires at <= |s| && forall i | 0 <= i < at :: HardwareIdsAt(s[i..]).None?
    ensures SearchHardware(s) == SearchHardware(s[at..])
  {
    if at == 0 {
      assert s[0..] == s;
    } else {
      SearchSkips(s, at - 1);
      var rest := s[at - 1..];
      assert HardwareIdsAt(rest).None? && rest[1..] == s[at..];
    }
  }

  /** A hardware ID that names a device after any text that names none gives that device. */
  lemma HardwareRoundTrip(before: string, spelled: string, plus: bool, vid: nat, pid: nat, tail: string)
    requires vid < 0x1_0000 && pid < 0x1_0000
    requires Up(spelled) == Heading(VID, if plus then FTDI_PID else USB_PID, vid, pid)
    requires forall i | 0 <= i < |before| :: HardwareIdsAt((before + (spelled + tail))[i..]).None?
    ensures ParseHardwareId(Some(before + (spelled + tail))) == (Some(vid), Some(pid))
  {
    var s := before + (spelled + tail);
    SearchSkips(s, |before|);
    assert s[|before|..] == spelled + tail;
    HardwareHere(spelled, plus, vid, pid, tail);
  }

  lemma HardwareHere(spelled: string, plus: bool, vid: nat, pid: nat, tail: string)
    requires vid < 0x1_0000 && pid < 0x1_0000
    requires Up(spelled) == Heading(VID, if plus then FTDI_PID else USB_PID, vid, pid)
    ensures HardwareIdsAt(spelled + tail) == Some(Ids(vid, pid, tail))
  {
    HeadingSpelled(spelled, VID, if plus then FTDI_PID else USB_PID, vid, pid, tail);
    if plus {
      JointsDiffer(spelled + tail);
    }
  }

  lemma JointsDiffer(s: string)
    requires TakeIds(s, VID, FTDI_PID).Some?
    ensures TakeIds(s, VID, USB_PID).None?
  {
    var rest := Take4(After(s, VID).value).value.rest;
    assert After(rest, FTDI_PID).Some?;
    assert Up(rest[..|FTDI_PID|])[0] == UpChar(rest[0]);
    assert Up(rest[..|USB_PID|])[0] == UpChar(rest[0]);
  }
}
