/** Helpers shared by every part of the model: optional values, results,
    bytes, and the few Python string operations the toolkit relies on
    (strip, lower, startswith, split, join, str(int), int(str), padding). */
module Common {

  datatype Option<+T> = None | Some(value: T) {
    /** The wrapped value, or `default` for None (Python's `dict.get(k, default)`). */
    function GetOr(default: T): T {
      if Some? then value else default
    }
  }

  datatype Result<+T, +E> = Ok(value: T) | Err(error: E)

  /** One byte of the serial stream. */
  type Byte = b: int | 0 <= b < 256

  /** The escape character, written `\33` in the source. */
  const ESC: char := 27 as char

  /** Python's `str.isspace` (the characters `str.strip` removes). */
  predicate IsSpace(c: char) {
    var n := c as int;
    (9 <= n <= 13) || (28 <= n <= 32) || n == 0x85 || n == 0xA0 || n == 0x1680
    || (0x2000 <= n <= 0x200A) || n == 0x2028 || n == 0x2029 || n == 0x202F
    || n == 0x205F || n == 0x3000
  }

  predicate IsDigit(c: char) {
    '0' <= c <= '9'
  }

  predicate IsAlpha(c: char) {
    ('a' <= c <= 'z') || ('A' <= c <= 'Z')
  }

  predicate AllDigits(s: string) {
    forall i :: 0 <= i < |s| ==> IsDigit(s[i])
  }

  /** `str.isalpha()` on ASCII text: non-empty and letters only. */
  predicate IsAlphaWord(s: string) {
    s != [] && forall i :: 0 <= i < |s| ==> IsAlpha(s[i])
  }

  predicate StartsWith(s: string, prefix: string) {
    |prefix| <= |s| && s[..|prefix|] == prefix
  }

  /** `str.lstrip()`: drops the leading whitespace and nothing else. */
  function TrimLeft(s: string): (r: string)
    ensures |r| <= |s|
    ensures r == [] || !IsSpace(r[0])
    ensures forall i :: 0 <= i < |s| - |r| ==> IsSpace(s[i])
  {
    if s != [] && IsSpace(s[0]) then TrimLeft(s[1..]) else s
  }

  /** What `TrimLeft` keeps is a suffix of its input. */
  lemma {:induction false} TrimLeftSuffix(s: string)
    ensures TrimLeft(s) == s[|s| - |TrimLeft(s)|..]
  {
    if s != [] && IsSpace(s[0]) {
      TrimLeftSuffix(s[1..]);
    }
  }

  /** `str.rstrip()`: drops the trailing whitespace and nothing else. */
  function TrimRight(s: string): (r: string)
    ensures |r| <= |s|
    ensures r == [] || !IsSpace(r[|r| - 1])
    ensures forall i :: |r| <= i < |s| ==> IsSpace(s[i])
  {
    if s != [] && IsSpace(s[|s| - 1]) then TrimRight(s[..|s| - 1]) else s
  }

  /** What `TrimRight` keeps is a prefix of its input. */
  lemma {:induction false} TrimRightPrefix(s: string)
    ensures TrimRight(s) == s[..|TrimRight(s)|]
  {
    if s != [] && IsSpace(s[|s| - 1]) {
      TrimRightPrefix(s[..|s| - 1]);
    }
  }

  /** `str.strip()`. */
  function Strip(s: string): (r: string)
    ensures |r| <= |s|
    ensures r == [] || (!IsSpace(r[0]) && !IsSpace(r[|r| - 1]))
  {
    TrimRightPrefix(TrimLeft(s));
    TrimRight(TrimLeft(s))
  }

  /** Stripping is the identity on text that neither starts nor ends with whitespace. */
  lemma {:induction false} StripNoSpaceEnds(s: string)
    requires s == [] || (!IsSpace(s[0]) && !IsSpace(s[|s| - 1]))
    ensures Strip(s) == s
  {
    assert TrimLeft(s) == s;
  }

  /** Only whitespace is lost by stripping, so an all-space text strips to "". */
  lemma {:induction false} StripAllSpace(s: string)
    requires forall i :: 0 <= i < |s| ==> IsSpace(s[i])
    ensures Strip(s) == ""
  {
    if s != [] {
      assert IsSpace(s[0]);
      StripAllSpace(s[1..]);
      assert TrimLeft(s) == TrimLeft(s[1..]);
    }
  }

  function LowerChar(c: char): char {
    if 'A' <= c <= 'Z' then (c as int + 32) as char else c
  }

  /** `str.lower()` restricted to ASCII letters. */
  function Lower(s: string): (r: string)
    ensures |r| == |s|
    ensures forall i :: 0 <= i < |s| ==> r[i] == LowerChar(s[i])
  {
    seq(|s|, i requires 0 <= i < |s| => LowerChar(s[i]))
  }

  function DigitChar(d: nat): (c: char)
    requires d < 10
    ensures IsDigit(c)
  {
    ('0' as int + d) as char
  }

  function DigitValue(c: char): (d: nat)
    requires IsDigit(c)
    ensures d < 10 && DigitChar(d) == c
  {
    c as int - '0' as int
  }

  /** `str(n)` for a natural number: its decimal digits, no leading zero. */
  function NatToString(n: nat): (s: string)
    ensures s != [] && AllDigits(s)
    ensures |s| > 1 ==> s[0] != '0'
    decreases n
  {
    if n < 10 then [DigitChar(n)] else NatToString(n / 10) + [DigitChar(n % 10)]
  }

  /** The number a string of decimal digits denotes. */
  function DigitsValue(s: string): nat
    requires AllDigits(s)
  {
    if s == [] then 0 else DigitsValue(s[..|s| - 1]) * 10 + DigitValue(s[|s| - 1])
  }

  lemma {:induction false} DigitsValueOfNat(n: nat)
    ensures DigitsValue(NatToString(n)) == n
    decreases n
  {
    var s := NatToString(n);
    if n >= 10 {
      DigitsValueOfNat(n / 10);
      assert s[..|s| - 1] == NatToString(n / 10);
    }
  }

  /** Distinct numbers print differently: `str` is injective on naturals. */
  lemma NatToStringInjective(m: nat, n: nat)
    requires NatToString(m) == NatToString(n)
    ensures m == n
  {
    DigitsValueOfNat(m);
    DigitsValueOfNat(n);
  }

  /** A run of digits ended by a non-digit is read back unambiguously. */
  lemma DigitsPrefixUnique(a: string, b: string, s: string, t: string)
    requires AllDigits(a) && AllDigits(b) && s != [] && t != [] && !IsDigit(s[0]) && !IsDigit(t[0])
    requires a + s == b + t
    ensures a == b && s == t
  {
    var u := a + s;
    assert !IsDigit(u[|a|]) && !IsDigit(u[|b|]);
    assert forall i :: 0 <= i < |a| ==> IsDigit(u[i]);
    assert forall i :: 0 <= i < |b| ==> IsDigit(u[i]);
    assert |a| == |b|;
    assert a == u[..|a|] && b == u[..|b|];
  }

  /** Python's `int(s)`: surrounding whitespace, an optional sign, then one or more
      ASCII digits. */
  function ParseInt(s: string): (r: Option<int>)
    ensures r.Some? ==> Strip(s) != []
  {
    var t := Strip(s);
    if t == [] then None
    else if t[0] == '-' || t[0] == '+' then
      var d := t[1..];
      if d != [] && AllDigits(d) then
        Some(if t[0] == '-' then -(DigitsValue(d) as int) else DigitsValue(d))
      else None
    else if AllDigits(t) then Some(DigitsValue(t))
    else None
  }

  /** `int(str(n)) == n`. */
  lemma {:induction false} ParseIntOfNat(n: nat)
    ensures ParseInt(NatToString(n)) == Some(n as int)
  {
    var s := NatToString(n);
    DigitsValueOfNat(n);
    StripDigits(s);
    assert s[0] != '-' && s[0] != '+';
  }

  /** `int("-" + str(n)) == -n`. */
  lemma {:induction false} ParseIntOfNegated(n: nat)
    ensures ParseInt("-" + NatToString(n)) == Some(-(n as int))
  {
    var s := NatToString(n);
    DigitsValueOfNat(n);
    var m := "-" + s;
    StripSigned(m);
    assert m[1..] == s;
  }

  /** Digits, or a minus sign before digits, have no whitespace to strip. */
  lemma StripDigits(s: string)
    requires s != [] && AllDigits(s)
    ensures Strip(s) == s
  {
    assert IsDigit(s[0]) && IsDigit(s[|s| - 1]);
    StripNoSpaceEnds(s);
  }

  lemma StripSigned(m: string)
    requires |m| > 1 && m[0] == '-' && AllDigits(m[1..])
    ensures Strip(m) == m
  {
    assert IsDigit(m[1..][|m| - 2]);
    StripNoSpaceEnds(m);
  }

  function Spaces(n: nat): (r: string)
    ensures |r| == n && forall i :: 0 <= i < n ==> r[i] == ' '
  {
    seq(n, _ => ' ')
  }

  /** Python's `f"{s: >w}"`: right-aligned in a field of at least `w` characters. */
  function PadLeft(s: string, w: nat): (r: string)
    ensures |r| == if |s| < w then w else |s|
    ensures r[|r| - |s|..] == s
    ensures forall i :: 0 <= i < |r| - |s| ==> r[i] == ' '
  {
    if |s| < w then Spaces(w - |s|) + s else s
  }

  /** Python's `f"{s: <w}"`: left-aligned in a field of at least `w` characters. */
  function PadRight(s: string, w: nat): (r: string)
    ensures |r| == if |s| < w then w else |s|
    ensures r[..|s|] == s
    ensures forall i :: |s| <= i < |r| ==> r[i] == ' '
  {
    if |s| < w then s + Spaces(w - |s|) else s
  }

  /** `sep.join(parts)`. */
  function Join(parts: seq<string>, sep: string): string {
    if parts == [] then ""
    else if |parts| == 1 then parts[0]
    else parts[0] + sep + Join(parts[1..], sep)
  }

  function IndexOf(s: string, c: char): (k: nat)
    requires c in s
    ensures k < |s| && s[k] == c && c !in s[..k]
  {
    if s[0] == c then 0 else 1 + IndexOf(s[1..], c)
  }

  /** `s.split(sep)` for a one-character separator: never empty, no part contains
      the separator, and joining the parts back gives `s`. */
  function Split(s: string, sep: char): (parts: seq<string>)
    ensures |parts| >= 1
    ensures forall i :: 0 <= i < |parts| ==> sep !in parts[i]
    ensures Join(parts, [sep]) == s
    decreases |s|
  {
    if sep in s then
      var k := IndexOf(s, sep);
      var tail := Split(s[k + 1..], sep);
      assert s == s[..k] + [sep] + s[k + 1..];
      [s[..k]] + tail
    else [s]
  }

  /** `c` occurs in `s` at most once (`s.split(c)` has at most two parts). */
  predicate AtMostOnce(s: string, c: char) {
    forall i, j :: 0 <= i < j < |s| && s[i] == c ==> s[j] != c
  }

  /** A slice cut in two at `j`. */
  lemma SliceJoin<T>(s: seq<T>, i: nat, j: nat, k: nat)
    requires i <= j <= k <= |s|
    ensures s[i..k] == s[i..j] + s[j..k]
  {
  }

  /** Concatenation regrouped: the writes of consecutive steps, in order. */
  lemma AppendAssoc<T>(a: seq<T>, b: seq<T>, c: seq<T>)
    ensures a + (b + c) == a + b + c
  {
  }

  /** Regrouping four concatenated sequences. */
  lemma AppendAssoc3<T>(a: seq<T>, b: seq<T>, c: seq<T>, d: seq<T>)
    ensures a + b + c + d == a + (b + c + d)
  {
    AppendAssoc(a, b, c);
    AppendAssoc(a, b + c, d);
  }
}
