/** The command-line tokenizer: quoted text, `-abc` option groups,
    `--name=value` long options, `key=value` pairs (when enabled), runs of
    spaces and plain words; an optional limit hands the rest of the line over
    as one text token. `to_string` writes tokens back and `to_dict` sorts them
    into a command, positional arguments, options and key-value pairs. */
module Tokenizing {
  import opened Common
  import Dict

  /** The `content` of an option token: `True` when given without a value. */
  datatype Content = Flag | Text(text: string)

  /** One token; the comment names its `type`. */
  datatype Token =
    | /** "text": a word, quoted text (with its quote) or the rest of the line */
      TextToken(content: string, quote: Option<char>)
    | /** "option": one letter of a `-abc` group, content `True` */
      ShortOption(letter: char, group: string)
    | /** "long_option" */
      LongOption(name: string, value: Content, delimiter: Option<char>, quote: Option<char>)
    | /** "key_value" */
      KeyValue(name: string, content: string)
    | /** "space": the whole run of spaces */
      SpaceRun(content: string)

  /** What `tokenize` does with a text: return tokens, raise, or never return. */
  datatype Outcome = Tokens(tokens: seq<Token>) | Raises | Hangs

  function Prepend(ts: seq<Token>, o: Outcome): (r: Outcome)
    ensures r.Tokens? <==> o.Tokens?
    ensures r.Tokens? ==> r.tokens == ts + o.tokens
  {
    if o.Tokens? then Tokens(ts + o.tokens) else o
  }

  lemma PrependPrepend(a: seq<Token>, b: seq<Token>, o: Outcome)
    ensures Prepend(a, Prepend(b, o)) == Prepend(a + b, o)
  {
    if o.Tokens? {
      AppendAssoc(a, b, o.tokens);
    }
  }

  /** `_read_until_chars(text, pos, chars)`: the first position from `pos`
      holding one of `chars`, or the end of the text. */
  function UntilChars(text: string, pos: nat, chars: seq<string>): (r: nat)
    ensures pos <= |text| ==> pos <= r <= |text|
    ensures pos > |text| ==> r == pos
    ensures forall k :: pos <= k < r ==> [text[k]] !in chars
    ensures r < |text| ==> [text[r]] in chars
    decreases |text| - pos
  {
    if pos < |text| && [text[pos]] !in chars then UntilChars(text, pos + 1, chars) else pos
  }

  /** `_read_exclude_chars(text, pos, chars)`: the first position from `pos`
      holding none of `chars`, or the end of the text. */
  function ExcludeChars(text: string, pos: nat, chars: seq<string>): (r: nat)
    ensures pos <= |text| ==> pos <= r <= |text|
    ensures pos > |text| ==> r == pos
    ensures forall k :: pos <= k < r ==> [text[k]] in chars
    ensures r < |text| ==> [text[r]] !in chars
    decreases |text| - pos
  {
    if pos < |text| && [text[pos]] in chars then ExcludeChars(text, pos + 1, chars) else pos
  }

  /** `_quoted_text(tokens, text, start, quote_char)`: the text up to the
      closing quote, which is skipped; without one, the rest of the text. */
  function QuotedAt(text: string, start: nat, q: char): (r: (Token, nat))
    requires start <= |text|
    ensures r.0.TextToken? && r.0.quote == Some(q) && q !in r.0.content
    ensures r.1 <= |text| ==> start < r.1 && text[start..r.1] == r.0.content + [q]
    ensures r.1 > |text| ==> r.1 == |text| + 1 && text[start..] == r.0.content
  {
    var pos := UntilChars(text, start, [[q]]);
    var content := text[start..pos];
    assert forall j :: 0 <= j < |content| ==> content[j] == text[start + j];
    (TextToken(content, Some(q)), pos + 1)
  }

  /** `_long_option(tokens, text, start)`, `start` just after `--`: the name
      runs to a delimiter or a space. A space (not a delimiter) gives content
      `True`; after a delimiter comes a quoted value (quotes dropped) or a
      value up to the next space. None where the name runs to the end of the
      text, which makes the source index past it. */
  function LongOptionAt(delims: seq<string>, text: string, start: nat): (r: Option<(Token, nat)>)
    requires start <= |text|
    ensures r.None? <==> UntilChars(text, start, delims + [" "]) == |text|
    ensures r.Some? ==>
              var t := r.value.0;
              t.LongOption? && start <= r.value.1 <= |text| + 1
              && (t.value.Flag? <==> t.delimiter.None?) && (t.quote.Some? ==> t.delimiter.Some?)
              && (t.delimiter.Some? ==> [t.delimiter.value] in delims)
  {
    var pos := UntilChars(text, start, delims + [" "]);
    if pos == |text| then None
    else
      var name := text[start..pos];
      var d := text[pos];
      if [d] !in delims then Some((LongOption(name, Flag, None, None), pos))
      else
        var s := pos + 1;
        if |text| > s && (text[s] == '"' || text[s] == '\'') then
          var p := UntilChars(text, s + 1, [[text[s]]]);
          Some((LongOption(name, Text(text[s + 1..p]), Some(d), Some(text[s])), p + 1))
        else
          var p := UntilChars(text, s, [" "]);
          Some((LongOption(name, Text(text[s..p]), Some(d), None), p))
  }

  /** One "option" token per letter of `letters`, each remembering the whole
      group. */
  function ShortTokens(letters: string, group: string): (ts: seq<Token>)
    ensures |ts| == |letters|
    ensures forall k :: 0 <= k < |letters| ==> ts[k] == ShortOption(letters[k], group)
  {
    if letters == [] then [] else [ShortOption(letters[0], group)] + ShortTokens(letters[1..], group)
  }

  /** `_short_option(tokens, text, start)`, `start` just after `-`: the
      group runs to the next space. */
  function ShortOptionsAt(text: string, start: nat): (r: (seq<Token>, nat))
    requires start <= |text|
    ensures start <= r.1 <= |text| && (r.1 < |text| ==> text[r.1] == ' ')
    ensures r.0 == ShortTokens(text[start..r.1], text[start..r.1])
  {
    var pos := UntilChars(text, start, [" "]);
    (ShortTokens(text[start..pos], text[start..pos]), pos)
  }

  /** `_text(tokens, text, start, support_key_value)`: a word up to a space
      (or an `=`, with key-value pairs on); an alphabetic word followed by `=`
      takes the rest of the line as its value. */
  function TextAt(text: string, start: nat, keyValue: bool): (r: (seq<Token>, nat))
    requires start <= |text|
    ensures |r.0| == 1 && start <= r.1 <= |text|
    ensures r.1 == start && start < |text| ==> text[start] == ' ' || (keyValue && text[start] == '=')
  {
    var delims := if keyValue then [" ", "="] else [" "];
    var pos := UntilChars(text, start, delims);
    var content := text[start..pos];
    if keyValue && pos < |text| && text[pos] == '=' && IsAlphaWord(content) then
      ([KeyValue(content, text[pos + 1..])], |text|)
    else
      ([TextToken(content, None)], pos)
  }

  /** `_space(tokens, text, start)`, `start` just after the first space: the
      token holds the whole run. */
  function SpaceAt(text: string, start: nat): (r: (Token, nat))
    requires 0 < start <= |text| && text[start - 1] == ' '
    ensures start <= r.1 <= |text| && (r.1 < |text| ==> text[r.1] != ' ')
    ensures r.0 == SpaceRun(text[start - 1..r.1])
    ensures forall k :: start - 1 <= k < r.1 ==> text[k] == ' '
  {
    var pos := ExcludeChars(text, start, [" "]);
    assert text[start - 1..pos] == " " + text[start..pos];
    (SpaceRun(" " + text[start..pos]), pos)
  }

  /** One turn of the `tokenize` loop at `i`: the tokens added and where the
      next turn starts; None where the source raises. Only an `=` starting a
      word (with key-value pairs on) leaves the position where it was. */
  function StepAt(delims: seq<string>, text: string, i: nat, keyValue: bool): (r: Option<(seq<Token>, nat)>)
    requires i < |text|
    ensures r.Some? ==> i <= r.value.1 <= |text| + 1
    ensures r.Some? && r.value.1 == i ==> keyValue && text[i] == '='
  {
    var c := text[i];
    if c == '"' || c == '\'' then
      var q := QuotedAt(text, i + 1, c);
      Some(([q.0], q.1))
    else if c == '-' then
      var start := i + 1;
      if start < |text| && text[start] == '-' then
        var l := LongOptionAt(delims, text, start + 1);
        if l.None? then None else Some(([l.value.0], l.value.1))
      else
        Some(ShortOptionsAt(text, start))
    else if c == ' ' then
      var s := SpaceAt(text, i + 1);
      Some(([s.0], s.1))
    else
      Some(TextAt(text, i, keyValue))
  }

  /** The rest of the text from `pos` (Python's `text[pos:]`, empty past the
      end). */
  function Rest(text: string, pos: nat): string {
    if pos <= |text| then text[pos..] else ""
  }

  /** The `tokenize` loop from position `i` after `count` turns. Without a
      limit, a turn that does not move repeats forever. */
  function Scan(delims: seq<string>, text: string, i: nat, count: nat, limit: Option<int>, keyValue: bool): Outcome
    requires i <= |text| + 1
    decreases |text| + 1 - i, if limit.Some? && limit.value > count then limit.value - count else 0
  {
    if i >= |text| then Tokens([])
    else
      var step := StepAt(delims, text, i, keyValue);
      if step.None? then Raises
      else
        var ts := step.value.0;
        var next := step.value.1;
        if limit.None? then
          if next == i then Hangs
          else Prepend(ts, Scan(delims, text, next, count + 1, limit, keyValue))
        else if count + 1 >= limit.value then Tokens(ts + [TextToken(Rest(text, next), None)])
        else Prepend(ts, Scan(delims, text, next, count + 1, limit, keyValue))
  }

  /** The outcome of `tokenize(text, options)`, with `limit` and `key_value` read from the
      options; a limit that is not positive fails the assertion. */
  function Tokenized(delims: seq<string>, text: string, limit: Option<int>, keyValue: bool): (r: Outcome)
    ensures limit.Some? && limit.value <= 0 ==> r == Raises
  {
    if limit.Some? && limit.value <= 0 then Raises else Scan(delims, text, 0, 0, limit, keyValue)
  }

  /** `_read_until_chars` stops at the first position holding one of the
      characters, and only there. */
  lemma UntilCharsIs(text: string, pos: nat, chars: seq<string>, r: nat)
    requires pos <= r <= |text|
    requires forall k :: pos <= k < r ==> [text[k]] !in chars
    requires r < |text| ==> [text[r]] in chars
    ensures UntilChars(text, pos, chars) == r
  {
    var u := UntilChars(text, pos, chars);
    assert u == r;
  }

  /** `-abc` (not `--`) up to a space or the end gives one "option" token per
      letter, each with the whole group. */
  lemma ShortGroupStep(delims: seq<string>, text: string, i: nat, j: nat, keyValue: bool)
    requires i < j <= |text| && text[i] == '-' && (i + 1 < |text| ==> text[i + 1] != '-')
    requires forall k :: i + 1 <= k < j ==> text[k] != ' '
    requires j < |text| ==> text[j] == ' '
    ensures var g := text[i + 1..j];
            StepAt(delims, text, i, keyValue) == Some((ShortTokens(g, g), j))
  {
    UntilCharsIs(text, i + 1, [" "], j);
  }

  /** `--name=value` up to a space or the end, the value unquoted, gives a
      "long_option" token with the delimiter and the value. */
  lemma LongValueStep(delims: seq<string>, text: string, i: nat, pos: nat, j: nat, keyValue: bool)
    requires i + 2 <= pos < j <= |text| && text[i] == '-' && text[i + 1] == '-'
    requires forall k :: i + 2 <= k < pos ==> [text[k]] !in delims && text[k] != ' '
    requires [text[pos]] in delims
    requires pos + 1 < |text| ==> text[pos + 1] != '"' && text[pos + 1] != '\''
    requires forall k :: pos + 1 <= k < j ==> text[k] != ' '
    requires j < |text| ==> text[j] == ' '
    ensures StepAt(delims, text, i, keyValue)
            == Some(([LongOption(text[i + 2..pos], Text(text[pos + 1..j]), Some(text[pos]), None)], j))
  {
    UntilCharsIs(text, i + 2, delims + [" "], pos);
    UntilCharsIs(text, pos + 1, [" "], j);
  }

  /** A run of spaces gives one "space" token holding the whole run. */
  lemma SpaceStep(delims: seq<string>, text: string, i: nat, j: nat, keyValue: bool)
    requires i < j <= |text|
    requires forall k :: i <= k < j ==> text[k] == ' '
    requires j < |text| ==> text[j] != ' '
    ensures StepAt(delims, text, i, keyValue) == Some(([SpaceRun(text[i..j])], j))
  {
    var e := ExcludeChars(text, i + 1, [" "]);
    assert e == j;
  }

  /** A word not starting with a quote or a dash, up to a space or the end,
      gives one "text" token (key-value pairs off). */
  lemma WordStep(delims: seq<string>, text: string, i: nat, j: nat)
    requires i < j <= |text| && text[i] != '"' && text[i] != '\'' && text[i] != '-'
    requires forall k :: i <= k < j ==> text[k] != ' '
    requires j < |text| ==> text[j] == ' '
    ensures StepAt(delims, text, i, false) == Some(([TextToken(text[i..j], None)], j))
  {
    UntilCharsIs(text, i, [" "], j);
  }

  /** A name running to the end of the text after `--` raises. */
  lemma LongOptionAtEndRaises(delims: seq<string>, text: string, i: nat, count: nat, limit: Option<int>, keyValue: bool)
    requires i + 2 <= |text| && text[i] == '-' && text[i + 1] == '-'
    requires forall k :: i + 2 <= k < |text| ==> [text[k]] !in delims && text[k] != ' '
    ensures Scan(delims, text, i, count, limit, keyValue) == Raises
  {
    var p := UntilChars(text, i + 2, delims + [" "]);
    if p < |text| {
      assert false;
    }
  }

  /** With key-value pairs on and no limit, a word starting with `=` stops
      the loop from moving. */
  lemma EqualsHangs(delims: seq<string>, text: string, i: nat, count: nat)
    requires i < |text| && text[i] == '='
    ensures Scan(delims, text, i, count, None, true) == Hangs
  {
    assert UntilChars(text, i, [" ", "="]) == i;
  }

  /** With a limit, the loop always ends: it returns tokens or raises. */
  lemma {:induction false} LimitNeverHangs(delims: seq<string>, text: string, i: nat, count: nat, limit: int, keyValue: bool)
    requires i <= |text| + 1
    ensures Scan(delims, text, i, count, Some(limit), keyValue) != Hangs
    decreases |text| + 1 - i, if limit > count then limit - count else 0
  {
    if i < |text| {
      var step := StepAt(delims, text, i, keyValue);
      if step.Some? && count + 1 < limit {
        LimitNeverHangs(delims, text, step.value.1, count + 1, limit, keyValue);
      }
    }
  }

  // ---------------------------------------------------------------------
  // to_string

  function Wrapped(content: string, quote: Option<char>): string {
    if quote.Some? then [quote.value] + content + [quote.value] else content
  }

  /** How `to_string` writes one token; `afterShort` says whether the token
      before was an "option" (then a letter is written without its dash). */
  function TokenText(t: Token, afterShort: bool): string {
    match t
    case TextToken(content, quote) => Wrapped(content, quote)
    case SpaceRun(content) => content
    case ShortOption(letter, _) => if afterShort then [letter] else "-" + [letter]
    case LongOption(name, value, delimiter, quote) =>
      "--" + name + (if delimiter.Some? then [delimiter.value] else "")
      + (if value.Text? then Wrapped(value.text, quote) else "")
    case KeyValue(name, content) => name + "=" + content
  }

  /** Whether the last token written was an "option". */
  function AfterShort(ts: seq<Token>, afterShort: bool): bool {
    if ts == [] then afterShort else ts[|ts| - 1].ShortOption?
  }

  /** The `to_string` loop, `afterShort` standing for `last_type`. */
  function Emit(ts: seq<Token>, afterShort: bool): string
    decreases |ts|
  {
    if ts == [] then "" else TokenText(ts[0], afterShort) + Emit(ts[1..], ts[0].ShortOption?)
  }

  /** `to_string(tokens)`. */
  function ToString(ts: seq<Token>): (r: string)
    ensures ts == [] ==> r == ""
    ensures ts != [] ==> TokenText(ts[0], false) <= r
  {
    Emit(ts, false)
  }

  /** Writing two runs of tokens one after the other. */
  lemma {:induction false} EmitAppend(a: seq<Token>, b: seq<Token>, afterShort: bool)
    ensures Emit(a + b, afterShort) == Emit(a, afterShort) + Emit(b, AfterShort(a, afterShort))
    decreases |a|
  {
    if a == [] {
      assert a + b == b;
    } else {
      var x := a[0].ShortOption?;
      var head := TokenText(a[0], afterShort);
      assert (a + b)[0] == a[0];
      assert (a + b)[1..] == a[1..] + b;
      assert Emit(a + b, afterShort) == head + Emit(a[1..] + b, x);
      assert Emit(a, afterShort) == head + Emit(a[1..], x);
      assert a[1..] != [] ==> a[1..][|a[1..]| - 1] == a[|a| - 1];
      assert AfterShort(a[1..], x) == AfterShort(a, afterShort);
      EmitAppend(a[1..], b, x);
      AppendAssoc(head, Emit(a[1..], x), Emit(b, AfterShort(a, afterShort)));
    }
  }

  /** A group of option letters is written back under one dash. */
  lemma {:induction false} ShortTokensText(letters: string, group: string, afterShort: bool)
    requires letters != []
    ensures Emit(ShortTokens(letters, group), afterShort) == (if afterShort then "" else "-") + letters
    ensures AfterShort(ShortTokens(letters, group), afterShort)
    decreases |letters|
  {
    var dash := if afterShort then "" else "-";
    var head := ShortOption(letters[0], group);
    var rest := ShortTokens(letters[1..], group);
    assert ShortTokens(letters, group) == [head] + rest;
    EmitCons(head, rest, afterShort);
    assert TokenText(head, afterShort) == dash + [letters[0]];
    if |letters| == 1 {
      assert rest == [];
      assert letters == [letters[0]];
    } else {
      ShortTokensText(letters[1..], group, true);
      assert Emit(rest, true) == letters[1..];
      AppendAssoc(dash, [letters[0]], letters[1..]);
      assert letters == [letters[0]] + letters[1..];
    }
  }

  /** Writing a token in front of a run of tokens. */
  lemma EmitCons(t: Token, ts: seq<Token>, afterShort: bool)
    ensures Emit([t] + ts, afterShort) == TokenText(t, afterShort) + Emit(ts, t.ShortOption?)
  {
    assert ([t] + ts)[1..] == ts;
  }

  /** A turn loses nothing when it moves on, stays within the text (a closing
      quote was found) and produces a token. */
  predicate StepLossless(delims: seq<string>, text: string, i: nat, keyValue: bool)
    requires i < |text|
  {
    var s := StepAt(delims, text, i, keyValue);
    s.Some? && i < s.value.1 <= |text| && s.value.0 != []
  }

  /** Every turn of the loop from `i` loses nothing. */
  predicate ScanLossless(delims: seq<string>, text: string, i: nat, count: nat, limit: Option<int>, keyValue: bool)
    requires i <= |text|
    decreases |text| - i
  {
    i == |text|
    || (StepLossless(delims, text, i, keyValue)
        && ((limit.Some? && count + 1 >= limit.value)
            || ScanLossless(delims, text, StepAt(delims, text, i, keyValue).value.1, count + 1, limit, keyValue)))
  }

  /** A quoted text is written back with its quotes. */
  lemma QuotedRoundTrip(text: string, i: nat, afterShort: bool)
    requires i < |text| && (text[i] == '"' || text[i] == '\'')
    requires QuotedAt(text, i + 1, text[i]).1 <= |text|
    ensures var r := QuotedAt(text, i + 1, text[i]);
            Emit([r.0], afterShort) == text[i..r.1]
  {
    var r := QuotedAt(text, i + 1, text[i]);
    assert text[i..r.1] == [text[i]] + text[i + 1..r.1];
  }

  /** A long option is written back as it was read, when its value's quote
      is closed. */
  lemma LongRoundTrip(delims: seq<string>, text: string, i: nat, afterShort: bool)
    requires i + 2 <= |text| && text[i] == '-' && text[i + 1] == '-'
    requires LongOptionAt(delims, text, i + 2).Some? && LongOptionAt(delims, text, i + 2).value.1 <= |text|
    ensures var r := LongOptionAt(delims, text, i + 2).value;
            Emit([r.0], afterShort) == text[i..r.1]
  {
    var r := LongOptionAt(delims, text, i + 2).value;
    var pos := UntilChars(text, i + 2, delims + [" "]);
    var name := text[i + 2..pos];
    assert text[i..pos] == "--" + name;
    assert Emit([r.0], afterShort) == TokenText(r.0, afterShort);
    if [text[pos]] in delims {
      LongValueRoundTrip(delims, text, i, pos);
    }
  }

  /** The delimiter and the value of a long option are written back as they
      were read. */
  lemma LongValueRoundTrip(delims: seq<string>, text: string, i: nat, pos: nat)
    requires i + 2 <= pos < |text| && text[i..pos] == "--" + text[i + 2..pos]
    requires pos == UntilChars(text, i + 2, delims + [" "]) && [text[pos]] in delims
    requires LongOptionAt(delims, text, i + 2).value.1 <= |text|
    ensures var r := LongOptionAt(delims, text, i + 2).value;
            TokenText(r.0, false) == text[i..r.1]
  {
    var s := pos + 1;
    var name := text[i + 2..pos];
    var head := "--" + name + [text[pos]];
    assert text[i..s] == head;
    var r := LongOptionAt(delims, text, i + 2).value;
    if |text| > s && (text[s] == '"' || text[s] == '\'') {
      var q := text[s];
      var p := UntilChars(text, s + 1, [[q]]);
      assert r == (LongOption(name, Text(text[s + 1..p]), Some(text[pos]), Some(q)), p + 1);
      QuotedValueText(text, i, s, p, head);
    } else {
      var p := UntilChars(text, s, [" "]);
      assert r == (LongOption(name, Text(text[s..p]), Some(text[pos]), None), p);
      SliceJoin(text, i, s, p);
    }
  }

  /** A quoted value is written back between its quotes. */
  lemma QuotedValueText(text: string, i: nat, s: nat, p: nat, head: string)
    requires i < s < p < |text| && text[i..s] == head && text[p] == text[s]
    ensures text[i..p + 1] == head + ([text[s]] + text[s + 1..p] + [text[s]])
  {
    assert text[s..p + 1] == [text[s]] + text[s + 1..p] + [text[s]];
    assert text[i..p + 1] == text[i..s] + text[s..p + 1];
  }

  /** A word or a key-value pair is written back as it was read. */
  lemma TextRoundTrip(text: string, i: nat, keyValue: bool, afterShort: bool)
    requires i < |text|
    ensures var r := TextAt(text, i, keyValue);
            Emit(r.0, afterShort) == text[i..r.1]
  {
    var delims := if keyValue then [" ", "="] else [" "];
    var pos := UntilChars(text, i, delims);
    var r := TextAt(text, i, keyValue);
    if r.0[0].KeyValue? {
      assert text[i..] == text[i..pos] + "=" + text[pos + 1..];
    }
  }

  /** One turn that loses nothing is written back as the text it read; an
      option group is followed by a space or the end of the text. */
  lemma StepRoundTrip(delims: seq<string>, text: string, i: nat, keyValue: bool, afterShort: bool)
    requires i < |text| && StepLossless(delims, text, i, keyValue)
    requires afterShort ==> text[i] == ' '
    ensures var r := StepAt(delims, text, i, keyValue).value;
            Emit(r.0, afterShort) == text[i..r.1]
            && (AfterShort(r.0, afterShort) ==> r.1 == |text| || text[r.1] == ' ')
  {
    var c := text[i];
    var r := StepAt(delims, text, i, keyValue).value;
    if c == '"' || c == '\'' {
      QuotedRoundTrip(text, i, afterShort);
    } else if c == '-' {
      if i + 1 < |text| && text[i + 1] == '-' {
        LongRoundTrip(delims, text, i, afterShort);
      } else {
        var g := text[i + 1..r.1];
        ShortTokensText(g, g, afterShort);
        assert text[i..r.1] == "-" + g;
      }
    } else if c == ' ' {
    } else {
      TextRoundTrip(text, i, keyValue, afterShort);
    }
  }

  /** Round trip from position `i`: when no turn loses anything, the tokens
      are written back as the rest of the text, the limit's text token
      included. */
  lemma {:induction false} ScanRoundTrip(delims: seq<string>, text: string, i: nat, count: nat,
                                         limit: Option<int>, keyValue: bool, afterShort: bool)
    requires i <= |text| && ScanLossless(delims, text, i, count, limit, keyValue)
    requires afterShort ==> i == |text| || text[i] == ' '
    ensures Scan(delims, text, i, count, limit, keyValue).Tokens?
    ensures Emit(Scan(delims, text, i, count, limit, keyValue).tokens, afterShort) == text[i..]
    decreases |text| - i
  {
    if i < |text| {
      var r := StepAt(delims, text, i, keyValue).value;
      StepRoundTrip(delims, text, i, keyValue, afterShort);
      var after := AfterShort(r.0, afterShort);
      if limit.Some? && count + 1 >= limit.value {
        var tail := TextToken(Rest(text, r.1), None);
        assert Scan(delims, text, i, count, limit, keyValue) == Tokens(r.0 + [tail]);
        assert Emit([tail], after) == text[r.1..];
        JoinRoundTrip(r.0, [tail], afterShort, text, i, r.1);
      } else {
        ScanRoundTrip(delims, text, r.1, count + 1, limit, keyValue, after);
        var rest := Scan(delims, text, r.1, count + 1, limit, keyValue).tokens;
        assert Scan(delims, text, i, count, limit, keyValue) == Tokens(r.0 + rest);
        JoinRoundTrip(r.0, rest, afterShort, text, i, r.1);
      }
    }
  }

  /** Two runs of tokens that write back two adjacent pieces of the text
      write back both. */
  lemma JoinRoundTrip(a: seq<Token>, b: seq<Token>, afterShort: bool, text: string, i: nat, m: nat)
    requires i <= m <= |text| && Emit(a, afterShort) == text[i..m]
    requires Emit(b, AfterShort(a, afterShort)) == text[m..]
    ensures Emit(a + b, afterShort) == text[i..]
  {
    EmitAppend(a, b, afterShort);
    assert text[i..] == text[i..m] + text[m..];
  }

  /** `to_string(tokenize(text))` gives the text back when no turn loses
      anything. */
  lemma RoundTrip(delims: seq<string>, text: string, limit: Option<int>, keyValue: bool)
    requires limit.Some? ==> limit.value > 0
    requires ScanLossless(delims, text, 0, 0, limit, keyValue)
    ensures Tokenized(delims, text, limit, keyValue).Tokens?
    ensures ToString(Tokenized(delims, text, limit, keyValue).tokens) == text
  {
    ScanRoundTrip(delims, text, 0, 0, limit, keyValue, false);
  }

  /** An unterminated quote takes the rest of the text, and is written back
      with a closing quote the text did not have. */
  lemma UnterminatedQuoteGainsQuote(delims: seq<string>, text: string, i: nat, keyValue: bool, afterShort: bool)
    requires i < |text| && (text[i] == '"' || text[i] == '\'')
    requires forall k :: i < k < |text| ==> text[k] != text[i]
    ensures var q := text[i];
            StepAt(delims, text, i, keyValue) == Some(([TextToken(text[i + 1..], Some(q))], |text| + 1))
            && Emit([TextToken(text[i + 1..], Some(q))], afterShort) == text[i..] + [q]
  {
    UntilCharsIs(text, i + 1, [[text[i]]], |text|);
    assert text[i..] == [text[i]] + text[i + 1..];
  }

  /** A dash followed by a space or the end of the text produces no token, so
      it is not written back. */
  lemma LoneDashDropped(delims: seq<string>, text: string, i: nat, keyValue: bool)
    requires i < |text| && text[i] == '-' && (i + 1 == |text| || text[i + 1] == ' ')
    ensures StepAt(delims, text, i, keyValue) == Some(([], i + 1))
  {
    UntilCharsIs(text, i + 1, [" "], i + 1);
  }

  /** The line `--name=value -ab pos1`. */
  const ExampleLine: string := "--name=value -ab pos1"

  /** Its tokens with the default delimiter `=`. */
  const ExampleTokens: seq<Token> :=
    [LongOption("name", Text("value"), Some('='), None), SpaceRun(" "),
     ShortOption('a', "ab"), ShortOption('b', "ab"), SpaceRun(" "), TextToken("pos1", None)]

  lemma ExampleLongStep(text: string)
    requires text == ExampleLine
    ensures StepAt(["="], text, 0, false) == Some(([ExampleTokens[0]], 12))
  {
    forall k | 2 <= k < 6
      ensures [text[k]] !in ["="] && text[k] != ' '
    {
      assert k == 2 || k == 3 || k == 4 || k == 5;
    }
    forall k | 7 <= k < 12
      ensures text[k] != ' '
    {
      assert k == 7 || k == 8 || k == 9 || k == 10 || k == 11;
    }
    LongValueStep(["="], text, 0, 6, 12, false);
    assert text[2..6] == "name" && text[7..12] == "value";
  }

  lemma ExampleGroupSteps(text: string)
    requires text == ExampleLine
    ensures StepAt(["="], text, 12, false) == Some(([ExampleTokens[1]], 13))
    ensures StepAt(["="], text, 13, false) == Some((ExampleTokens[2..4], 16))
  {
    SpaceStep(["="], text, 12, 13, false);
    assert text[12..13] == " ";
    forall k | 14 <= k < 16
      ensures text[k] != ' '
    {
      assert k == 14 || k == 15;
    }
    ShortGroupStep(["="], text, 13, 16, false);
    assert text[14..16] == "ab";
    assert ShortTokens("ab", "ab") == ExampleTokens[2..4];
  }

  lemma ExampleWordSteps(text: string)
    requires text == ExampleLine
    ensures StepAt(["="], text, 16, false) == Some(([ExampleTokens[4]], 17))
    ensures StepAt(["="], text, 17, false) == Some(([ExampleTokens[5]], 21))
  {
    SpaceStep(["="], text, 16, 17, false);
    assert text[16..17] == " ";
    forall k | 17 <= k < 21
      ensures text[k] != ' '
    {
      assert k == 17 || k == 18 || k == 19 || k == 20;
    }
    WordStep(["="], text, 17, 21);
    assert text[17..21] == "pos1";
  }

  /** The loop over five turns that each produce what they read. */
  lemma ExampleChain(text: string)
    requires |text| == 21
    requires StepAt(["="], text, 0, false) == Some(([ExampleTokens[0]], 12))
    requires StepAt(["="], text, 12, false) == Some(([ExampleTokens[1]], 13))
    requires StepAt(["="], text, 13, false) == Some((ExampleTokens[2..4], 16))
    requires StepAt(["="], text, 16, false) == Some(([ExampleTokens[4]], 17))
    requires StepAt(["="], text, 17, false) == Some(([ExampleTokens[5]], 21))
    ensures Scan(["="], text, 0, 0, None, false) == Tokens(ExampleTokens)
  {
    assert Scan(["="], text, 17, 4, None, false) == Tokens(ExampleTokens[5..]);
    assert Scan(["="], text, 16, 3, None, false) == Tokens(ExampleTokens[4..]);
    assert Scan(["="], text, 13, 2, None, false) == Tokens(ExampleTokens[2..]);
    assert Scan(["="], text, 12, 1, None, false) == Tokens(ExampleTokens[1..]);
  }

  /** `--name=value -ab pos1` gives a long option, a space, two option letters,
      a space and a word. */
  lemma ExampleTokenize()
    ensures Tokenized(["="], ExampleLine, None, false) == Tokens(ExampleTokens)
  {
    ExampleLongStep(ExampleLine);
    ExampleGroupSteps(ExampleLine);
    ExampleWordSteps(ExampleLine);
    ExampleChain(ExampleLine);
  }

  /** ... and is written back exactly. */
  lemma ExampleRoundTrip()
    ensures var o := Tokenized(["="], ExampleLine, None, false);
            o.Tokens? && ToString(o.tokens) == ExampleLine
  {
    ExampleTokenize();
    ExampleTokensText();
  }

  lemma ExampleTokensText()
    ensures ToString(ExampleTokens) == ExampleLine
  {
  }

  // ---------------------------------------------------------------------
  // to_dict

  /** The result of `to_dict`. */
  datatype Parsed = Parsed(command: Option<string>, positional: seq<string>,
                           options: Dict.Table<Content>, keyValues: Dict.Table<string>)

  /** One turn of the `to_dict` loop. */
  function Absorb(p: Parsed, t: Token): Parsed {
    match t
    case TextToken(content, _) =>
      if p.command.None? then p.(command := Some(content)) else p.(positional := p.positional + [content])
    case ShortOption(letter, _) => p.(options := Dict.Put(p.options, [letter], Flag))
    case LongOption(name, value, _, _) => p.(options := Dict.Put(p.options, name, value))
    case KeyValue(name, content) => p.(keyValues := Dict.Put(p.keyValues, name, content))
    case SpaceRun(_) => p
  }

  /** `to_dict(tokens)`: the tokens taken in order. */
  function ToDict(ts: seq<Token>): (r: Parsed)
    ensures r.command.None? ==> r.positional == []
    ensures |r.positional| + (if r.command.Some? then 1 else 0) <= |ts|
    decreases |ts|
  {
    if ts == [] then Parsed(None, [], [], []) else Absorb(ToDict(ts[..|ts| - 1]), ts[|ts| - 1])
  }

  /** The contents of the "text" tokens, in order. */
  function TextsOf(ts: seq<Token>): (r: seq<string>)
    ensures |r| <= |ts|
  {
    if ts == [] then []
    else (if ts[0].TextToken? then [ts[0].content] else []) + TextsOf(ts[1..])
  }

  lemma {:induction false} TextsOfAppend(ts: seq<Token>, t: Token)
    ensures TextsOf(ts + [t]) == TextsOf(ts) + (if t.TextToken? then [t.content] else [])
    decreases |ts|
  {
    if ts != [] {
      assert (ts + [t])[1..] == ts[1..] + [t];
      TextsOfAppend(ts[1..], t);
    } else {
      assert [t][1..] == [];
    }
  }

  /** The option a token sets, if any: its name and content. */
  function OptionOf(t: Token): Option<(string, Content)> {
    match t
    case ShortOption(letter, _) => Some(([letter], Flag))
    case LongOption(name, value, _, _) => Some((name, value))
    case _ => None
  }

  /** The content of the last option token named `name`. */
  function LastOption(ts: seq<Token>, name: string): Option<Content>
    decreases |ts|
  {
    if ts == [] then None
    else
      var o := OptionOf(ts[|ts| - 1]);
      if o.Some? && o.value.0 == name then Some(o.value.1) else LastOption(ts[..|ts| - 1], name)
  }

  /** The content of the last key-value token named `name`. */
  function LastKeyValue(ts: seq<Token>, name: string): Option<string>
    decreases |ts|
  {
    if ts == [] then None
    else
      var t := ts[|ts| - 1];
      if t.KeyValue? && t.name == name then Some(t.content) else LastKeyValue(ts[..|ts| - 1], name)
  }

  /** What one token does to the options and the key-value pairs. */
  lemma AbsorbTables(p: Parsed, t: Token)
    ensures var o := OptionOf(t);
            Absorb(p, t).options == (if o.Some? then Dict.Put(p.options, o.value.0, o.value.1) else p.options)
    ensures Absorb(p, t).keyValues == (if t.KeyValue? then Dict.Put(p.keyValues, t.name, t.content) else p.keyValues)
  {
  }

  /** The first text token is the command and the later ones, in order, the
      positional arguments. */
  lemma {:induction false} CommandThenPositional(ts: seq<Token>)
    ensures var p := ToDict(ts);
            var texts := TextsOf(ts);
            (texts == [] ==> p.command.None? && p.positional == [])
            && (texts != [] ==> p.command == Some(texts[0]) && p.positional == texts[1..])
    decreases |ts|
  {
    if ts != [] {
      var init := ts[..|ts| - 1];
      var t := ts[|ts| - 1];
      assert ts == init + [t];
      CommandThenPositional(init);
      TextsOfAppend(init, t);
      if TextsOf(init) != [] && t.TextToken? {
        assert (TextsOf(init) + [t.content])[1..] == TextsOf(init)[1..] + [t.content];
      }
    }
  }

  /** Options are looked up by name, the last token of that name winning;
      each name appears once. */
  lemma {:induction false} LastOptionWins(ts: seq<Token>, name: string)
    ensures Dict.Find(ToDict(ts).options, name) == LastOption(ts, name)
    ensures Dict.Distinct(ToDict(ts).options)
    decreases |ts|
  {
    if ts != [] {
      var init := ts[..|ts| - 1];
      LastOptionWins(init, name);
      AbsorbTables(ToDict(init), ts[|ts| - 1]);
      var o := OptionOf(ts[|ts| - 1]);
      if o.Some? {
        Dict.FindPut(ToDict(init).options, o.value.0, o.value.1, name);
        Dict.PutDistinct(ToDict(init).options, o.value.0, o.value.1);
      }
    }
  }

  /** Key-value pairs are looked up by name, the last one winning; each name
      appears once. */
  lemma {:induction false} LastKeyValueWins(ts: seq<Token>, name: string)
    ensures Dict.Find(ToDict(ts).keyValues, name) == LastKeyValue(ts, name)
    ensures Dict.Distinct(ToDict(ts).keyValues)
    decreases |ts|
  {
    if ts != [] {
      var init := ts[..|ts| - 1];
      LastKeyValueWins(init, name);
      var t := ts[|ts| - 1];
      AbsorbTables(ToDict(init), t);
      if t.KeyValue? {
        Dict.FindPut(ToDict(init).keyValues, t.name, t.content, name);
        Dict.PutDistinct(ToDict(init).keyValues, t.name, t.content);
      }
    }
  }

  /** Space tokens change nothing. */
  lemma SpacesIgnored(ts: seq<Token>, content: string)
    ensures ToDict(ts + [SpaceRun(content)]) == ToDict(ts)
  {
    assert (ts + [SpaceRun(content)])[..|ts|] == ts;
  }

  // ---------------------------------------------------------------------
  // The tokenizer object

  class Tokenizer {
    /** The characters that may end a long option's name before its value. */
    var delimiters: seq<string>

    constructor ()
      ensures delimiters == ["="]
    {
      delimiters := ["="];
    }

    /** `set_long_option_delimiters(delimiters)`. */
    method SetLongOptionDelimiters(ds: seq<string>)
      modifies this
      ensures delimiters == ds
    {
      delimiters := ds;
    }

    /** `_read_until_chars(text, pos, chars)`. */
    method ReadUntilChars(text: string, pos: nat, chars: seq<string>) returns (r: nat)
      ensures r == UntilChars(text, pos, chars)
    {
      r := pos;
      while r < |text| && [text[r]] !in chars
        invariant pos <= r && (pos <= |text| ==> r <= |text|) && (pos > |text| ==> r == pos)
        invariant UntilChars(text, r, chars) == UntilChars(text, pos, chars)
        decreases |text| - r
      {
        r := r + 1;
      }
    }

    /** `_read_exclude_chars(text, pos, chars)`. */
    method ReadExcludeChars(text: string, pos: nat, chars: seq<string>) returns (r: nat)
      ensures r == ExcludeChars(text, pos, chars)
    {
      r := pos;
      while r < |text| && [text[r]] in chars
        invariant pos <= r && (pos <= |text| ==> r <= |text|) && (pos > |text| ==> r == pos)
        invariant ExcludeChars(text, r, chars) == ExcludeChars(text, pos, chars)
        decreases |text| - r
      {
        r := r + 1;
      }
    }

    /** `_quoted_text(tokens, text, start, quote_char)`. */
    method QuotedText(tokens: seq<Token>, text: string, start: nat, q: char) returns (out: seq<Token>, pos: nat)
      requires start <= |text|
      ensures var r := QuotedAt(text, start, q);
              out == tokens + [r.0] && pos == r.1
    {
      var p := ReadUntilChars(text, start, [[q]]);
      out := tokens + [TextToken(text[start..p], Some(q))];
      pos := p + 1;
    }

    /** `_long_option(tokens, text, start)`. */
    method ReadLongOption(tokens: seq<Token>, text: string, start: nat) returns (out: seq<Token>, pos: nat)
      requires start <= |text| && LongOptionAt(delimiters, text, start).Some?
      ensures var r := LongOptionAt(delimiters, text, start).value;
              out == tokens + [r.0] && pos == r.1
    {
      var p := ReadUntilChars(text, start, delimiters + [" "]);
      var name := text[start..p];
      var d := text[p];
      if [d] !in delimiters {
        return tokens + [LongOption(name, Flag, None, None)], p;
      }
      var s := p + 1;
      if |text| > s {
        var quote := text[s];
        if quote == '"' || quote == '\'' {
          p := ReadUntilChars(text, s + 1, [[quote]]);
          return tokens + [LongOption(name, Text(text[s + 1..p]), Some(d), Some(quote))], p + 1;
        }
      }
      p := ReadUntilChars(text, s, [" "]);
      out := tokens + [LongOption(name, Text(text[s..p]), Some(d), None)];
      pos := p;
    }

    /** `_short_option(tokens, text, start)`. */
    method ReadShortOptions(tokens: seq<Token>, text: string, start: nat) returns (out: seq<Token>, pos: nat)
      requires start <= |text|
      ensures var r := ShortOptionsAt(text, start);
              out == tokens + r.0 && pos == r.1
    {
      pos := ReadUntilChars(text, start, [" "]);
      var group := text[start..pos];
      out := tokens;
      for k := 0 to |group|
        invariant |out| == |tokens| + k && out[..|tokens|] == tokens
        invariant forall j :: |tokens| <= j < |out| ==> out[j] == ShortOption(group[j - |tokens|], group)
      {
        out := out + [ShortOption(group[k], group)];
      }
      assert out == tokens + ShortTokens(group, group);
    }

    /** `_text(tokens, text, start, support_key_value)`. */
    method ReadText(tokens: seq<Token>, text: string, start: nat, keyValue: bool) returns (out: seq<Token>, pos: nat)
      requires start <= |text|
      ensures var r := TextAt(text, start, keyValue);
              out == tokens + r.0 && pos == r.1
    {
      var delims := [" "];
      if keyValue {
        delims := delims + ["="];
      }
      pos := ReadUntilChars(text, start, delims);
      var content := text[start..pos];
      if keyValue && pos < |text| && text[pos] == '=' && IsAlphaWord(content) {
        return tokens + [KeyValue(content, text[pos + 1..])], |text|;
      }
      out := tokens + [TextToken(content, None)];
    }

    /** `_space(tokens, text, start)`. */
    method ReadSpace(tokens: seq<Token>, text: string, start: nat) returns (out: seq<Token>, pos: nat)
      requires 0 < start <= |text| && text[start - 1] == ' '
      ensures var r := SpaceAt(text, start);
              out == tokens + [r.0] && pos == r.1
    {
      pos := ReadExcludeChars(text, start, [" "]);
      out := tokens + [SpaceRun(" " + text[start..pos])];
    }

    /** The choice of reader in the `tokenize` loop, by the character at `i`. */
    method ReadToken(tokens: seq<Token>, text: string, i: nat, keyValue: bool) returns (out: seq<Token>, next: nat)
      requires i < |text| && StepAt(delimiters, text, i, keyValue).Some?
      ensures var r := StepAt(delimiters, text, i, keyValue).value;
              out == tokens + r.0 && next == r.1
    {
      var c := text[i];
      if c == '"' || c == '\'' {
        out, next := QuotedText(tokens, text, i + 1, c);
      } else if c == '-' {
        var start := i + 1;
        if start < |text| && text[start] == '-' {
          out, next := ReadLongOption(tokens, text, start + 1);
        } else {
          out, next := ReadShortOptions(tokens, text, start);
        }
      } else if c == ' ' {
        out, next := ReadSpace(tokens, text, i + 1);
      } else {
        out, next := ReadText(tokens, text, i, keyValue);
      }
    }

    /** `tokenize(text, options)`, where it returns. */
    method Tokenize(text: string, limit: Option<int>, keyValue: bool) returns (tokens: seq<Token>)
      requires Tokenized(delimiters, text, limit, keyValue).Tokens?
      ensures tokens == Tokenized(delimiters, text, limit, keyValue).tokens
    {
      tokens := [];
      var i: nat := 0;
      var count: nat := 0;
      while i < |text|
        invariant i <= |text| + 1
        invariant limit.Some? ==> count < limit.value
        invariant Tokenized(delimiters, text, limit, keyValue)
                  == Prepend(tokens, Scan(delimiters, text, i, count, limit, keyValue))
        decreases |text| + 1 - i, if limit.Some? && limit.value > count then limit.value - count else 0
      {
        ghost var before := tokens;
        ghost var step := StepAt(delimiters, text, i, keyValue).value;
        ghost var atLimit := limit.Some? && count + 1 >= limit.value;
        var next;
        tokens, next := ReadToken(tokens, text, i, keyValue);
        if !atLimit {
          PrependPrepend(before, step.0, Scan(delimiters, text, next, count + 1, limit, keyValue));
        }
        i := next;
        count := count + 1;
        if limit.None? {
          continue;
        }
        if count >= limit.value {
          AppendAssoc(before, step.0, [TextToken(Rest(text, i), None)]);
          tokens := tokens + [TextToken(Rest(text, i), None)];
          break;
        }
      }
    }
  }
}
