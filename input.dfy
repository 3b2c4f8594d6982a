/** The key decoder (`Input`): turns the pending bytes of the stream into one
    key event. Printable bytes become characters, control bytes `CTRL_x` codes,
    and escape sequences named keys. Control sequences follow the layout of
    section 5.4 of ECMA-48: parameter bytes 0x30-0x3F, then intermediate bytes
    0x20-0x2F, then one final byte 0x40-0x7E. */
module Input {
  import opened Common
  import opened Serial

  /** The event types `INPUT_CHAR`, `INPUT_CTRL_CODE` and `INPUT_ESCAPE_CODE`
      (`INPUT_DATA` is declared by the source but never produced). */
  datatype KeyKind = CharKey | CtrlCode | EscapeCode

  datatype Key = Key(kind: KeyKind, name: string)

  /** `_input_slecial_keys`: final byte (or SS3 byte) to key name. */
  function SpecialKey(final: string): Option<string> {
    if final == "A" then Some("UP")
    else if final == "B" then Some("DOWN")
    else if final == "C" then Some("RIGHT")
    else if final == "D" then Some("LEFT")
    else if final == "F" then Some("END")
    else if final == "H" then Some("HOME")
    else if final == "P" then Some("F1")
    else if final == "Q" then Some("F2")
    else if final == "R" then Some("F3")
    else if final == "S" then Some("F4")
    else None
  }

  /** `_input_parameter_codes`: the parameter of `ESC [ p ~` to key name. */
  function ParameterCode(parameter: string): Option<string> {
    if parameter == "1" then Some("HOME")
    else if parameter == "2" then Some("INSERT")
    else if parameter == "3" then Some("DELETE")
    else if parameter == "4" then Some("END")
    else if parameter == "5" then Some("PGUP")
    else if parameter == "6" then Some("PGDW")
    else if parameter == "7" then Some("HOME")
    else if parameter == "8" then Some("END")
    else if parameter == "15" then Some("F5")
    else if parameter == "17" then Some("F6")
    else if parameter == "18" then Some("F7")
    else if parameter == "19" then Some("F8")
    else if parameter == "20" then Some("F9")
    else if parameter == "21" then Some("F10")
    else if parameter == "23" then Some("F11")
    else if parameter == "24" then Some("F12")
    else None
  }

  /** `_input_escape_modifiers`: the modifier after `;` to a name prefix. */
  function EscapeModifier(modifier: string): Option<string> {
    if modifier == "~" then Some("")
    else if modifier == "2" then Some("SHIFT")
    else if modifier == "3" then Some("ALT")
    else if modifier == "4" then Some("ALT_SHIFT")
    else if modifier == "5" then Some("CONTROL")
    else if modifier == "6" then Some("CONTROL_SHIFT")
    else if modifier == "7" then Some("CONTROL_ALT")
    else if modifier == "8" then Some("CONTROL_ALT_SHIFT")
    else None
  }

  /** `_input_decode_escape_code`. A parameter holding two `;` makes the
      source's two-way split raise, so at most one is allowed. A missing
      modifier and the empty prefix of `~` are both false in the source's
      tests, so both are kept here as "". */
  function DecodeEscapeCode(parameter: string, intermediate: string, final: string): (r: Option<string>)
    requires AtMostOnce(parameter, ';')
    ensures r.Some? ==> r.value != ""
    ensures parameter == "" && intermediate == "" ==> r == (if final == "~" then None else SpecialKey(final))
  {
    var keyCode := if final != "~" then SpecialKey(final) else None;
    if parameter == "" && intermediate == "" then keyCode
    else
      var base := if ';' in parameter then parameter[..IndexOf(parameter, ';')] else parameter;
      var modifierCode :=
        if ';' in parameter then EscapeModifier(parameter[IndexOf(parameter, ';') + 1..]).GetOr("") else "";
      if base == "1" && modifierCode != "" && keyCode.Some? then
        Some(modifierCode + "_" + keyCode.value)
      else if base != "" && intermediate == "" && final == "~" then
        match ParameterCode(base)
        case Some(code) => Some(if modifierCode != "" then modifierCode + "_" + code else code)
        case None => None
      else None
  }

  /** The name `_input_read_escape_code` gives a control sequence: the decoded
      key, or the raw text after ESC when nothing decodes. */
  function CsiName(parameter: string, intermediate: string, final: string): string
    requires AtMostOnce(parameter, ';')
  {
    DecodeEscapeCode(parameter, intermediate, final).GetOr("[" + parameter + intermediate + final)
  }

  /** One `read(1).decode("ascii")`: a character, a byte ASCII cannot decode
      (UnicodeError), or nothing left to read. */
  datatype CharRead = Ascii(c: char, rest: seq<Byte>) | NonAscii(rest: seq<Byte>) | Dry

  function ReadChar(input: seq<Byte>): CharRead {
    if input == [] then Dry
    else if input[0] < 128 then Ascii(input[0] as char, input[1..])
    else NonAscii(input[1..])
  }

  /** What `_input_read_in_range` leaves: the run of in-range characters and the
      first character outside the range (already consumed); a UnicodeError after
      consuming the bad byte; or a read on a dry stream, where the source fails
      on `ord("")`. */
  datatype Scan = Scanned(run: string, stop: char, rest: seq<Byte>) | Undecodable(rest: seq<Byte>) | Starved

  /** `t` is what is left of `s` after reading some bytes from its front. */
  predicate SuffixOf(t: seq<Byte>, s: seq<Byte>) {
    |t| <= |s| && t == s[|s| - |t|..]
  }

  lemma SuffixTrans(a: seq<Byte>, b: seq<Byte>, c: seq<Byte>)
    requires SuffixOf(a, b) && SuffixOf(b, c)
    ensures SuffixOf(a, c)
  {
    assert a == b[|b| - |a|..] == c[|c| - |b|..][|b| - |a|..];
  }

  /** `s` with `run` in front of its scanned characters. */
  function Extend(run: string, s: Scan): Scan {
    if s.Scanned? then Scanned(run + s.run, s.stop, s.rest) else s
  }

  /** `_input_read_in_range(lo, hi, c)` with `read_next` set. */
  function ScanRange(lo: int, hi: int, c: char, input: seq<Byte>): (r: Scan)
    ensures r.Scanned? ==> !(lo <= r.stop as int <= hi)
    decreases |input|
  {
    if lo <= c as int <= hi then
      match ReadChar(input)
      case Dry => Starved
      case NonAscii(rest) => Undecodable(rest)
      case Ascii(next, rest) => Extend([c], ScanRange(lo, hi, next, rest))
    else Scanned("", c, input)
  }

  /** A scan only ever reads from the front of the stream. */
  lemma {:induction false} ScanConsumes(lo: int, hi: int, c: char, input: seq<Byte>)
    ensures !ScanRange(lo, hi, c, input).Starved? ==> SuffixOf(ScanRange(lo, hi, c, input).rest, input)
    decreases |input|
  {
    if lo <= c as int <= hi && input != [] && input[0] < 128 {
      ScanConsumes(lo, hi, input[0] as char, input[1..]);
      var r := ScanRange(lo, hi, input[0] as char, input[1..]);
      if !r.Starved? {
        SuffixTrans(r.rest, input[1..], input);
      }
    }
  }

  /** The outcome of one `input_read_key`: the key (None for the source's
      `(None, None)`) and the bytes left, or Fault where the source raises. */
  datatype Decoded = Decoded(key: Option<Key>, rest: seq<Byte>) | Fault

  function Escape(name: string, rest: seq<Byte>): Decoded {
    Decoded(Some(Key(EscapeCode, name)), rest)
  }

  /** `ESC [` followed by `input`: parameter, intermediate and final bytes. The
      third scan reads nothing (`read_next` false): it only tests the character
      the second scan stopped at, which is lost when it is not a final byte. */
  function CsiSpec(input: seq<Byte>): (r: Decoded)
    ensures r.Decoded? ==> |r.rest| < |input| && SuffixOf(r.rest, input)
  {
    match ReadChar(input)
    case Dry => Fault
    case NonAscii(rest) => Decoded(None, rest)
    case Ascii(c, rest) =>
      assert SuffixOf(rest, input);
      ScanConsumes(0x30, 0x3F, c, rest);
      match ScanRange(0x30, 0x3F, c, rest)
      case Starved => Fault
      case Undecodable(r1) => SuffixTrans(r1, rest, input); Decoded(None, r1)
      case Scanned(parameter, c1, r1) =>
        SuffixTrans(r1, rest, input);
        ScanConsumes(0x20, 0x2F, c1, r1);
        match ScanRange(0x20, 0x2F, c1, r1)
        case Starved => Fault
        case Undecodable(r2) => SuffixTrans(r2, r1, input); Decoded(None, r2)
        case Scanned(intermediate, c2, r2) =>
          SuffixTrans(r2, r1, input);
          var final := if 0x40 <= c2 as int <= 0x7E then [c2] else "";
          if !AtMostOnce(parameter, ';') then Fault
          else Escape(CsiName(parameter, intermediate, final), r2)
  }

  /** `_input_read_escape_code` on the bytes after ESC (at least one is waiting). */
  function EscapeSpec(input: seq<Byte>): (r: Decoded)
    requires input != []
    ensures r.Decoded? ==> |r.rest| < |input| && SuffixOf(r.rest, input)
  {
    var code := input[0];
    var rest := input[1..];
    if code >= 128 then Decoded(None, rest)
    else if code == 91 then CsiSpec(rest)
    else if 0 < code < 32 then Escape("CTRL_ALT_" + [(code + 64) as char], rest)
    else if code == 79 then
      match ReadChar(rest)
      case Dry => Escape("O", [])
      case NonAscii(r) => Decoded(None, r)
      case Ascii(x, r) => Escape(SpecialKey([x]).GetOr("O" + [x]), r)
    else if 96 < code < 123 then Escape("ALT_" + [(code - 32) as char], rest)
    else Escape([code as char], rest)
  }

  /** `input_read_key`: nothing pending gives no key and consumes nothing;
      otherwise at least one byte is consumed. */
  function ReadKeySpec(input: seq<Byte>): (r: Decoded)
    ensures input == [] ==> r == Decoded(None, [])
    ensures input != [] && r.Decoded? ==> |r.rest| < |input| && SuffixOf(r.rest, input)
  {
    if input == [] then Decoded(None, [])
    else
      var b := input[0];
      var rest := input[1..];
      if b >= 128 then Decoded(None, rest)
      else if b == 27 then
        if rest == [] then Escape("ESC", []) else EscapeSpec(rest)
      else if b < 32 then Decoded(Some(Key(CtrlCode, "CTRL_" + [(b + 64) as char])), rest)
      else if b < 127 then Decoded(Some(Key(CharKey, [b as char])), rest)
      else Decoded(Some(Key(CtrlCode, "BACKSPACE")), rest)
  }

  /** One step of a scan: an in-range character followed by an ASCII byte. */
  lemma ScanStep(lo: int, hi: int, c: char, input: seq<Byte>)
    requires lo <= c as int <= hi && input != [] && input[0] < 128
    ensures ScanRange(lo, hi, c, input) == Extend([c], ScanRange(lo, hi, input[0] as char, input[1..]))
  {
  }

  /** The loop invariant of `ReadInRange` survives reading one more ASCII byte. */
  lemma ScanAdvance(lo: int, hi: int, whole: Scan, run: string, c: char, input: seq<Byte>)
    requires lo <= c as int <= hi && input != [] && input[0] < 128
    requires ScanRange(lo, hi, c, input) != Starved
    requires whole == Extend(run, ScanRange(lo, hi, c, input))
    ensures ScanRange(lo, hi, input[0] as char, input[1..]) != Starved
    ensures whole == Extend(run + [c], ScanRange(lo, hi, input[0] as char, input[1..]))
  {
    var next := ScanRange(lo, hi, input[0] as char, input[1..]);
    ScanStep(lo, hi, c, input);
    if next.Scanned? {
      assert run + ([c] + next.run) == (run + [c]) + next.run;
    }
  }

  /** The scan ends at the first character outside the range. */
  lemma ScanStop(lo: int, hi: int, whole: Scan, run: string, c: char, input: seq<Byte>)
    requires !(lo <= c as int <= hi)
    requires whole == Extend(run, ScanRange(lo, hi, c, input))
    ensures whole == Scanned(run, c, input)
  {
    assert run + "" == run;
  }

  /** A byte ASCII cannot decode ends the scan with a UnicodeError. */
  lemma ScanBad(lo: int, hi: int, whole: Scan, run: string, c: char, input: seq<Byte>)
    requires lo <= c as int <= hi && input != [] && input[0] >= 128
    requires whole == Extend(run, ScanRange(lo, hi, c, input))
    ensures whole == Undecodable(input[1..])
  {
  }

  /** `_input_read_in_range(lo, hi, first)`, reading while the character is in range. */
  method ReadInRange(io: Console, lo: int, hi: int, first: char) returns (s: Scan)
    requires ScanRange(lo, hi, first, io.pending) != Starved
    modifies io
    ensures s == ScanRange(lo, hi, first, old(io.pending))
    ensures io.pending == s.rest && io.written == old(io.written)
  {
    ghost var whole := ScanRange(lo, hi, first, io.pending);
    var run := "";
    var c := first;
    while lo <= c as int <= hi
      invariant ScanRange(lo, hi, c, io.pending) != Starved
      invariant whole == Extend(run, ScanRange(lo, hi, c, io.pending))
      invariant io.written == old(io.written)
      decreases |io.pending|
    {
      ghost var before := io.pending;
      var b := io.Read();
      if b >= 128 {
        ScanBad(lo, hi, whole, run, c, before);
        return Undecodable(io.pending);
      }
      ScanAdvance(lo, hi, whole, run, c, before);
      run := run + [c];
      c := b as char;
    }
    ScanStop(lo, hi, whole, run, c, io.pending);
    s := Scanned(run, c, io.pending);
  }

  /** `_input_read_escape_code`: None stands for the UnicodeError the caller turns
      into `(None, None)`. */
  method ReadEscapeCode(io: Console) returns (name: Option<string>)
    requires io.pending != [] && EscapeSpec(io.pending) != Fault
    modifies io
    ensures EscapeSpec(old(io.pending)) == Decoded(if name.Some? then Some(Key(EscapeCode, name.value)) else None, io.pending)
    ensures io.written == old(io.written)
  {
    var code := io.Read();
    if code >= 128 {
      return None;
    }
    if code == 91 {
      if io.pending == [] {
        assert false;
      }
      var b := io.Read();
      if b >= 128 {
        return None;
      }
      var parameter := ReadInRange(io, 0x30, 0x3F, b as char);
      if parameter.Undecodable? {
        return None;
      }
      var intermediate := ReadInRange(io, 0x20, 0x2F, parameter.stop);
      if intermediate.Undecodable? {
        return None;
      }
      var c := intermediate.stop;
      var final := if 0x40 <= c as int <= 0x7E then [c] else "";
      return Some(CsiName(parameter.run, intermediate.run, final));
    } else if 0 < code < 32 {
      return Some("CTRL_ALT_" + [(code + 64) as char]);
    } else if code == 79 {
      if io.pending == [] {
        return Some("O");
      }
      var x := io.Read();
      if x >= 128 {
        return None;
      }
      return Some(SpecialKey([x as char]).GetOr("O" + [x as char]));
    } else if 96 < code < 123 {
      return Some("ALT_" + [(code - 32) as char]);
    }
    return Some([code as char]);
  }

  /** `input_read_key`: reads one key event from the stream. */
  method ReadKey(io: Console) returns (key: Option<Key>)
    requires ReadKeySpec(io.pending) != Fault
    modifies io
    ensures ReadKeySpec(old(io.pending)) == Decoded(key, io.pending)
    ensures io.written == old(io.written)
  {
    if !io.InWaiting() {
      return None;
    }
    var b := io.Read();
    if b >= 128 {
      return None;
    }
    if b == 27 {
      if !io.InWaiting() {
        return Some(Key(EscapeCode, "ESC"));
      }
      var name := ReadEscapeCode(io);
      return if name.Some? then Some(Key(EscapeCode, name.value)) else None;
    } else if b < 32 {
      return Some(Key(CtrlCode, "CTRL_" + [(b + 64) as char]));
    } else if b < 127 {
      return Some(Key(CharKey, [b as char]));
    }
    return Some(Key(CtrlCode, "BACKSPACE"));
  }

  // ---------------------------------------------------------------------------
  // Properties of the decoder

  /** The characters of a run of ASCII bytes. */
  function Chars(bytes: seq<Byte>): (s: string)
    requires forall i :: 0 <= i < |bytes| ==> bytes[i] < 128
    ensures |s| == |bytes| && forall i :: 0 <= i < |s| ==> s[i] as int == bytes[i]
  {
    seq(|bytes|, i requires 0 <= i < |bytes| => bytes[i] as char)
  }

  predicate InRange(bytes: seq<Byte>, lo: int, hi: int) {
    forall i :: 0 <= i < |bytes| ==> lo <= bytes[i] <= hi
  }

  /** Scanning a run of in-range bytes followed by an out-of-range ASCII byte
      (the scan starting at the first of them) takes the whole run and stops
      exactly at that byte. */
  lemma {:induction false} ScanRun(lo: int, hi: int, run: seq<Byte>, tail: seq<Byte>)
    requires 0 <= lo <= hi < 128 && InRange(run, lo, hi)
    requires tail != [] && tail[0] < 128 && !(lo <= tail[0] <= hi)
    ensures var s := run + tail;
            ScanRange(lo, hi, s[0] as char, s[1..]) == Scanned(Chars(run), tail[0] as char, tail[1..])
    decreases |run|
  {
    var s := run + tail;
    if run == [] {
      assert s == tail;
    } else {
      var t := run[1..] + tail;
      assert s[1..] == t;
      ScanRun(lo, hi, run[1..], tail);
      ScanStep(lo, hi, s[0] as char, s[1..]);
      assert [run[0] as char] + Chars(run[1..]) == Chars(run);
    }
  }

  /** Every complete control sequence after `ESC [` (parameter bytes,
      intermediate bytes, one final byte, at most one `;`) decodes to one
      escape-code event: the named key, or the raw text after ESC; exactly its
      bytes are consumed. */
  lemma {:induction false} CsiTotal(p: seq<Byte>, i: seq<Byte>, f: Byte, rest: seq<Byte>)
    requires InRange(p, 0x30, 0x3F) && InRange(i, 0x20, 0x2F) && 0x40 <= f <= 0x7E
    requires AtMostOnce(Chars(p), ';')
    ensures CsiSpec(p + i + [f] + rest) == Escape(CsiName(Chars(p), Chars(i), [f as char]), rest)
  {
    var tail1 := i + [f] + rest;
    var tail2 := [f] + rest;
    assert p + i + [f] + rest == p + tail1;
    assert tail1 == i + tail2;
    ScanRun(0x30, 0x3F, p, tail1);
    ScanRun(0x20, 0x2F, i, tail2);
    assert tail2[1..] == rest;
  }

  /** The same through `input_read_key`: the ESC and `[` bytes lead in. */
  lemma CsiKey(p: seq<Byte>, i: seq<Byte>, f: Byte, rest: seq<Byte>)
    requires InRange(p, 0x30, 0x3F) && InRange(i, 0x20, 0x2F) && 0x40 <= f <= 0x7E
    requires AtMostOnce(Chars(p), ';')
    ensures ReadKeySpec([27, 91] + p + i + [f] + rest) == Escape(CsiName(Chars(p), Chars(i), [f as char]), rest)
  {
    var input := [27, 91] + p + i + [f] + rest;
    assert input[1..][1..] == p + i + [f] + rest;
    CsiTotal(p, i, f, rest);
  }

  /** The fixed tables at work: cursor keys, HOME, DELETE, F5, and no name
      for a bare `~`. */
  lemma PlainKeyNames()
    ensures DecodeEscapeCode("", "", "A") == Some("UP")
    ensures DecodeEscapeCode("", "", "H") == Some("HOME")
    ensures DecodeEscapeCode("3", "", "~") == Some("DELETE")
    ensures DecodeEscapeCode("15", "", "~") == Some("F5")
    ensures DecodeEscapeCode("", "", "~") == None
  {
  }

  /** A modifier after `;`: `3;5 ~` is CONTROL_DELETE. */
  lemma ControlDeleteName()
    ensures DecodeEscapeCode("3;5", "", "~") == Some("CONTROL_DELETE")
  {
    var p := "3;5";
    assert IndexOf(p, ';') == 1 && p[..1] == "3" && p[2..] == "5";
    assert "CONTROL" + "_" + "DELETE" == "CONTROL_DELETE";
  }

  /** `1;5 A` is CONTROL_UP. */
  lemma ControlUpName()
    ensures DecodeEscapeCode("1;5", "", "A") == Some("CONTROL_UP")
  {
    var q := "1;5";
    assert IndexOf(q, ';') == 1 && q[..1] == "1" && q[2..] == "5";
    assert "CONTROL" + "_" + "UP" == "CONTROL_UP";
  }

  /** The unknown modifier 9 gives no name. */
  lemma UnknownModifierName()
    ensures DecodeEscapeCode("1;9", "", "A") == None
  {
    var r := "1;9";
    assert IndexOf(r, ';') == 1 && r[..1] == "1" && r[2..] == "9";
  }

  /** `ESC [ 1 ; m X` is a modified key when both the modifier and the key
      resolve; with an unknown modifier no name is found. */
  lemma {:induction false} ModifiedKey(m: char, x: char)
    requires m != ';' && x != '~'
    ensures EscapeModifier([m]).Some? && EscapeModifier([m]).value != "" && SpecialKey([x]).Some? ==>
              DecodeEscapeCode("1;" + [m], "", [x]) == Some(EscapeModifier([m]).value + "_" + SpecialKey([x]).value)
    ensures EscapeModifier([m]).None? ==> DecodeEscapeCode("1;" + [m], "", [x]) == None
  {
    var p := "1;" + [m];
    assert p[0] == '1' && p[1] == ';';
    assert IndexOf(p, ';') == 1;
    assert p[..1] == "1" && p[2..] == [m];
  }

  /** Single-byte events: control bytes other than ESC give `CTRL_<chr(b+64)>`,
      printable bytes themselves, 127 BACKSPACE, and bytes from 128 on no event;
      each consumes exactly that byte. */
  lemma SingleByteKeys(b: Byte, rest: seq<Byte>)
    ensures b < 32 && b != 27 ==> ReadKeySpec([b] + rest) == Decoded(Some(Key(CtrlCode, "CTRL_" + [(b + 64) as char])), rest)
    ensures 32 <= b < 127 ==> ReadKeySpec([b] + rest) == Decoded(Some(Key(CharKey, [b as char])), rest)
    ensures b == 127 ==> ReadKeySpec([b] + rest) == Decoded(Some(Key(CtrlCode, "BACKSPACE")), rest)
    ensures b >= 128 ==> ReadKeySpec([b] + rest) == Decoded(None, rest)
  {
    assert ([b] + rest)[1..] == rest;
  }

  /** Enter and Tab arrive as `CTRL_M` and `CTRL_I`; a lone ESC is `ESC`. */
  lemma NamedControlKeys()
    ensures ReadKeySpec([13]) == Decoded(Some(Key(CtrlCode, "CTRL_M")), [])
    ensures ReadKeySpec([9]) == Decoded(Some(Key(CtrlCode, "CTRL_I")), [])
    ensures ReadKeySpec([27]) == Escape("ESC", [])
  {
    SingleByteKeys(13, []);
    SingleByteKeys(9, []);
    assert [13 as Byte] + [] == [13];
    assert [9 as Byte] + [] == [9];
    assert "CTRL_" + [(13 + 64) as char] == "CTRL_M";
    assert "CTRL_" + [(9 + 64) as char] == "CTRL_I";
  }

  /** After ESC: a control byte gives `CTRL_ALT_x`, a lowercase letter `ALT_X`,
      `O x` the special key or the raw `Ox`. */
  lemma AltKeys(b: Byte, rest: seq<Byte>)
    ensures 0 < b < 32 ==> ReadKeySpec([27, b] + rest) == Escape("CTRL_ALT_" + [(b + 64) as char], rest)
    ensures 96 < b < 123 ==> ReadKeySpec([27, b] + rest) == Escape("ALT_" + [(b - 32) as char], rest)
    ensures b < 128 ==> ReadKeySpec([27, 79, b] + rest) == Escape(SpecialKey([b as char]).GetOr("O" + [b as char]), rest)
  {
    assert ([27, b] + rest)[1..] == [b] + rest;
    assert ([b] + rest)[1..] == rest;
    assert ([27, 79, b] + rest)[1..] == [79, b] + rest;
    assert ([79, b] + rest)[1..] == [b] + rest;
  }

  /** `ESC [ A` is UP. */
  lemma UpBytes()
    ensures ReadKeySpec([27, 91, 65]) == Escape("UP", [])
  {
    PlainKeyNames();
    CsiKey([], [], 65, []);
    assert [27, 91] + [] + [] + [65 as Byte] + [] == [27, 91, 65];
    assert Chars([]) == "";
  }

  /** `ESC [ 3 ~` is DELETE. */
  lemma DeleteBytes()
    ensures ReadKeySpec([27, 91, 51, 126]) == Escape("DELETE", [])
  {
    PlainKeyNames();
    assert Chars([51]) == "3";
    assert Chars([]) == "";
    CsiKey([51], [], 126, []);
    assert [27, 91] + [51 as Byte] + [] + [126 as Byte] + [] == [27, 91, 51, 126];
  }

  lemma ControlDeleteParameter()
    ensures InRange([51, 59, 53], 0x30, 0x3F) && Chars([51, 59, 53]) == "3;5" && AtMostOnce("3;5", ';')
  {
  }

  /** `ESC [ 3 ; 5 ~` is CONTROL_DELETE. */
  lemma ControlDeleteBytes()
    ensures ReadKeySpec([27, 91, 51, 59, 53, 126]) == Escape("CONTROL_DELETE", [])
  {
    ControlDeleteParameter();
    ControlDeleteName();
    assert Chars([]) == "";
    CsiKey([51, 59, 53], [], 126, []);
    assert [27, 91] + [51 as Byte, 59, 53] + [] + [126 as Byte] + [] == [27, 91, 51, 59, 53, 126];
  }
}
