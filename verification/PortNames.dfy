/**
 Windows port names: every spelling of one port has one canonical name.

 Upper-casing is a parameter: any character map that fixes and never creates the
 characters device prefixes are made of, drops no character, and is done after one pass.
*/
module PortNames {
  import opened Types

  /** `\\.\` and `\\?\`. */
  const DOT_PREFIX := "\\\\.\\"
  const QUERY_PREFIX := "\\\\?\\"

  predicate HasPrefix(name: string) {
    DOT_PREFIX <= name || QUERY_PREFIX <= name
  }

  predicate Special(c: char) {
    c == '\\' || c == '.' || c == '?'
  }

  type Fold = char -> string

  ghost predicate IsFold(up: Fold) {
    forall c :: FoldsWell(up, c)
  }

  ghost predicate FoldsWell(up: Fold, c: char) {
    && up(c) != []
    && (Special(c) ==> up(c) == [c])
    && (!Special(c) ==> forall d | d in up(c) :: !Special(d))
    && (forall d | d in up(c) :: up(d) == [d])
  }

  function Upper(up: Fold, s: string): string {
    if s == [] then [] else up(s[0]) + Upper(up, s[1..])
  }

  /** `name[4:]` while a prefix is left. */
  function Strip(name: string): (core: string)
    ensures !HasPrefix(core)
    decreases |name|
  {
    if HasPrefix(name) then Strip(name[4..]) else name
  }

  function Canonical(up: Fold, path: string): string {
    Upper(up, Strip(path))
  }

  function NormaliseComPath(path: string): (r: string)
    ensures HasPrefix(r)
  {
    if HasPrefix(path) then path else DOT_PREFIX + path
  }

  // ---------------------------------------------------------------------
  // Upper-casing
  // ---------------------------------------------------------------------

  lemma {:induction false} UpperAppend(up: Fold, s: string, t: string)
    ensures Upper(up, s + t) == Upper(up, s) + Upper(up, t)
  {
    if s == [] {
      assert s + t == t;
    } else {
      UpperAppend(up, s[1..], t);
      assert (s + t)[1..] == s[1..] + t;
    }
  }

  lemma {:induction false} UpperTwice(up: Fold, s: string)
    requires IsFold(up)
    ensures forall c | c in Upper(up, s) :: up(c) == [c]
    ensures Upper(up, Upper(up, s)) == Upper(up, s)
  {
    if s == [] {
    } else {
      UpperTwice(up, s[1..]);
      assert FoldsWell(up, s[0]);
      Settled(up, up(s[0]));
      UpperAppend(up, up(s[0]), Upper(up, s[1..]));
    }
  }

  lemma {:induction false} Settled(up: Fold, s: string)
    requires forall c | c in s :: up(c) == [c]
    ensures Upper(up, s) == s
  {
    if s == [] {
    } else {
      Settled(up, s[1..]);
    }
  }

  /** The first character of an upper-cased name is special exactly when the name's own is, and then the same. */
  lemma FirstSpecial(up: Fold, s: string, c: char)
    requires IsFold(up) && Special(c)
    ensures [c] <= s <==> [c] <= Upper(up, s)
    ensures [c] <= s ==> Upper(up, s)[1..] == Upper(up, s[1..])
  {
    if s != [] {
      assert FoldsWell(up, s[0]);
      assert up(s[0])[0] in up(s[0]);
      assert Upper(up, s)[0] == up(s[0])[0];
    }
  }

  /** A prefix of special characters is there after upper-casing exactly when it was there before. */
  lemma {:induction false} SpecialPrefix(up: Fold, s: string, p: string)
    requires IsFold(up) && forall c | c in p :: Special(c)
    ensures p <= s <==> p <= Upper(up, s)
    ensures p <= s ==> Upper(up, s)[|p|..] == Upper(up, s[|p|..])
    decreases |p|
  {
    if p == [] {
    } else {
      FirstSpecial(up, s, p[0]);
      var u := Upper(up, s);
      assert p == [p[0]] + p[1..];
      if [p[0]] <= s {
        SpecialPrefix(up, s[1..], p[1..]);
        assert s == [p[0]] + s[1..] && u == [p[0]] + u[1..];
        assert p <= s <==> p[1..] <= s[1..];
        assert p <= u <==> p[1..] <= u[1..];
        if p <= s {
          assert s[|p|..] == s[1..][|p| - 1..] && u[|p|..] == u[1..][|p| - 1..];
        }
      }
    }
  }

  /** Upper-casing and stripping commute. */
  lemma {:induction false} StripUpper(up: Fold, s: string)
    requires IsFold(up)
    ensures Strip(Upper(up, s)) == Upper(up, Strip(s))
    decreases |s|
  {
    SpecialPrefix(up, s, DOT_PREFIX);
    SpecialPrefix(up, s, QUERY_PREFIX);
    if !HasPrefix(s) {
    } else {
      StripUpper(up, s[4..]);
    }
  }

  // ---------------------------------------------------------------------
  // The spellings of one port
  // ---------------------------------------------------------------------

  /** One change of spelling that Windows does not notice. */
  datatype Respelling = AddDot | AddQuery | DropPrefix | Recase(spelled: string)

  function Respell(up: Fold, name: string, r: Respelling): string {
    match r
    case AddDot => DOT_PREFIX + name
    case AddQuery => QUERY_PREFIX + name
    case DropPrefix => if HasPrefix(name) then name[4..] else name
    case Recase(spelled) => if Upper(up, spelled) == Upper(up, name) then spelled else name
  }

  function RespellAll(up: Fold, name: string, rs: seq<Respelling>): string
    decreases |rs|
  {
    if rs == [] then name else RespellAll(up, Respell(up, name, rs[0]), rs[1..])
  }

  /** Two names of one port: some changes of spelling lead from one to the other. */
  ghost predicate SamePort(up: Fold, p: string, q: string) {
    exists rs :: RespellAll(up, p, rs) == q
  }

  lemma RespellKeeps(up: Fold, name: string, r: Respelling)
    requires IsFold(up)
    ensures Canonical(up, Respell(up, name, r)) == Canonical(up, name)
  {
    match r
    case AddDot => assert (DOT_PREFIX + name)[4..] == name;
    case AddQuery => assert (QUERY_PREFIX + name)[4..] == name;
    case DropPrefix =>
    case Recase(spelled) =>
      StripUpper(up, name);
      StripUpper(up, spelled);
  }

  lemma {:induction false} RespellAllKeeps(up: Fold, name: string, rs: seq<Respelling>)
    requires IsFold(up)
    ensures Canonical(up, RespellAll(up, name, rs)) == Canonical(up, name)
    decreases |rs|
  {
    if rs == [] {
    } else {
      RespellKeeps(up, name, rs[0]);
      RespellAllKeeps(up, Respell(up, name, rs[0]), rs[1..]);
    }
  }

  lemma {:induction false} RespellChain(up: Fold, name: string, first: seq<Respelling>, rest: seq<Respelling>)
    ensures RespellAll(up, name, first + rest) == RespellAll(up, RespellAll(up, name, first), rest)
    decreases |first|
  {
    if first == [] {
      assert first + rest == rest;
    } else {
      RespellChain(up, Respell(up, name, first[0]), first[1..], rest);
      assert (first + rest)[1..] == first[1..] + rest;
    }
  }

  /** The drops that lead from a name to its core, and the additions that lead back. */
  lemma {:induction false} ToCoreAndBack(up: Fold, name: string) returns (down: seq<Respelling>, back: seq<Respelling>)
    ensures RespellAll(up, name, down) == Strip(name)
    ensures RespellAll(up, Strip(name), back) == name
    decreases |name|
  {
    if HasPrefix(name) {
      var down', back' := ToCoreAndBack(up, name[4..]);
      var add := if DOT_PREFIX <= name then AddDot else AddQuery;
      down, back := [DropPrefix] + down', back' + [add];
      RespellChain(up, Strip(name), back', [add]);
      assert Respell(up, name[4..], add) == name;
      assert RespellAll(up, name[4..], [add]) == RespellAll(up, name, []);
    } else {
      down, back := [], [];
    }
  }

  /** Two names have the same canonical name exactly when they are names of one port. */
  lemma SameNameSamePort(up: Fold, p: string, q: string)
    requires IsFold(up)
    ensures Canonical(up, p) == Canonical(up, q) <==> SamePort(up, p, q)
  {
    if SamePort(up, p, q) {
      var rs :| RespellAll(up, p, rs) == q;
      RespellAllKeeps(up, p, rs);
    }
    if Canonical(up, p) == Canonical(up, q) {
      var down, _ := ToCoreAndBack(up, p);
      var _, back := ToCoreAndBack(up, q);
      var recase := [Recase(Strip(q))];
      assert RespellAll(up, Strip(p), recase) == RespellAll(up, Strip(q), []);
      RespellChain(up, p, down, recase);
      RespellChain(up, p, down + recase, back);
      assert RespellAll(up, p, down + recase + back) == q;
    }
  }

  /** A canonical name has no prefix, is upper-case, is its own canonical name, and names the same port. */
  lemma CanonicalIsCanonical(up: Fold, path: string)
    requires IsFold(up)
    ensures var name := Canonical(up, path);
            && !HasPrefix(name)
            && Upper(up, name) == name
            && Canonical(up, name) == name
            && SamePort(up, path, name)
  {
    var name := Canonical(up, path);
    StripUpper(up, path);
    UpperTwice(up, Strip(path));
    assert Strip(name) == name;
    SameNameSamePort(up, path, name);
  }

  /** The form `CreateFileW` gets names the same port. */
  lemma NormalisedIsSamePort(up: Fold, path: string)
    requires IsFold(up)
    ensures Canonical(up, NormaliseComPath(path)) == Canonical(up, path)
    ensures NormaliseComPath(NormaliseComPath(path)) == NormaliseComPath(path)
  {
    RespellKeeps(up, path, AddDot);
  }

  // ---------------------------------------------------------------------
  // ASCII upper-casing is such a map
  // ---------------------------------------------------------------------

  function Ascii(c: char): string {
    if 'a' <= c <= 'z' then [(c as int - 32) as char] else [c]
  }

  lemma AsciiIsFold()
    ensures IsFold(Ascii)
  {
    forall c
      ensures FoldsWell(Ascii, c)
    {
    }
  }

  // ---------------------------------------------------------------------
  // The loops
  // ---------------------------------------------------------------------

  method CanonicalPortName(up: Fold, path: string) returns (name: string)
    ensures name == Canonical(up, path)
  {
    name := path;
    while DOT_PREFIX <= name || QUERY_PREFIX <= name
      invariant Strip(name) == Strip(path)
      decreases |name|
    {
      name := name[4..];
    }
    name := Upper(up, name);
  }

  datatype PortInfo = PortInfo(device: string, vid: Option<int>, pid: Option<int>, serial: Option<string>)

  datatype Filter = Filter(vid: Option<int>, pid: Option<int>, serial: Option<string>, device: Option<string>)

  /** What the caller asked for; the device filter means any name of the port. */
  ghost predicate Wanted(up: Fold, f: Filter, p: PortInfo) {
    && (f.vid.Some? ==> p.vid == f.vid)
    && (f.pid.Some? ==> p.pid == f.pid)
    && (f.serial.Some? ==> p.serial == f.serial)
    && (f.device.Some? ==> SamePort(up, p.device, f.device.value))
  }

  /** The first port that is wanted, or `None` when none is. */
  method FindSerialPort(up: Fold, ports: seq<PortInfo>, f: Filter) returns (found: Option<PortInfo>)
    requires IsFold(up)
    ensures found.None? ==> forall i | 0 <= i < |ports| :: !Wanted(up, f, ports[i])
    ensures found.Some? ==> exists i | 0 <= i < |ports| ::
              ports[i] == found.value && Wanted(up, f, ports[i])
              && forall j | 0 <= j < i :: !Wanted(up, f, ports[j])
  {
    var wanted: Option<string> := None;
    if f.device.Some? {
      var name := CanonicalPortName(up, f.device.value);
      wanted := Some(name);
    }
    var i := 0;
    while i < |ports|
      invariant i <= |ports|
      invariant forall j | 0 <= j < i :: !Wanted(up, f, ports[j])
    {
      var p := ports[i];
      var name := CanonicalPortName(up, p.device);
      if f.device.Some? {
        SameNameSamePort(up, p.device, f.device.value);
      }
      if (f.vid.None? || p.vid == f.vid) && (f.pid.None? || p.pid == f.pid)
         && (f.serial.None? || p.serial == f.serial) && (wanted.None? || name == wanted.value)
      {
        assert Wanted(up, f, ports[i]);
        return Some(p);
      }
      i := i + 1;
    }
    found := None;
  }
}
