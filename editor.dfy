/** The line editor behind `Prompt`, as functions on its state: every edit
    gives the new state and the strings written to the terminal. The cursor
    escapes are CUB and CUF (sections 8.3.18 and 8.3.20 of ECMA-48), deletion
    is DCH (section 8.3.26) and EL (section 8.3.41) erases to the end of the
    line. */
module Editor {
  import opened Common
  import opened Input
  import History
  import Autocomplete

  /** `ESC [ n f`: a control sequence with one numeric parameter. */
  function Csi(n: nat, final: char): string {
    [ESC] + "[" + NatToString(n) + [final]
  }

  /** `ESC [ K`: erase from the cursor to the end of the line. */
  function EraseToEnd(): string {
    [ESC] + "[K"
  }

  /** `ESC [ 2 J ESC [ 1 ; 1 H`: clear the screen and home the cursor. */
  function ClearAndHome(): string {
    [ESC] + "[2J" + [ESC] + "[1;1H"
  }

  /** The fields of a `Prompt`, with its history and completer. */
  datatype LineState = LineState(
    buffer: string,
    cursor: nat,
    maxLength: nat,
    copyText: string,
    lastKey: Option<string>,
    commandsEnabled: bool,
    clearScreenEnabled: bool,
    newPrompt: bool,
    promptString: string,
    hist: History.HistState,
    comp: Autocomplete.CompState)

  /** A new prompt: empty buffer, maximum length 120, everything enabled. */
  function InitialLine(): LineState {
    LineState("", 0, 120, "", None, true, true, true, "", History.InitialHistory(), Autocomplete.InitialCompletion())
  }

  /** The cursor is inside the buffer and the history index is in range. */
  predicate Valid(s: LineState) {
    s.cursor <= |s.buffer| && History.Valid(s.hist)
  }

  /** Inserted text never takes the buffer past the maximum length (only
      `set_buffer` can). */
  predicate Bounded(s: LineState) {
    |s.buffer| <= s.maxLength
  }

  /** The settings no edit touches. */
  predicate SameSettings(a: LineState, b: LineState) {
    a.maxLength == b.maxLength && a.commandsEnabled == b.commandsEnabled
    && a.clearScreenEnabled == b.clearScreenEnabled && a.newPrompt == b.newPrompt
    && a.promptString == b.promptString
  }

  /** The new state and what was written, in order. */
  datatype Effect = Effect(st: LineState, out: seq<string>)

  function Min(a: int, b: int): int {
    if a < b then a else b
  }

  /** `p` brought into `[0, hi]`. */
  function Clamp(p: int, hi: nat): nat {
    if p < 0 then 0 else if p > hi then hi else p
  }

  // ---------------------------------------------------------------------------
  // _move_cursor

  datatype Move = Move(st: LineState, moved: int, out: seq<string>)

  /** `_move_cursor(count)`: the cursor goes to `cursor + count` brought into the
      buffer, the distance actually moved is returned, and CUB or CUF is
      written only for a non-zero distance. */
  function Moved(s: LineState, count: int): (r: Move)
    requires Valid(s)
    ensures Valid(r.st) && r.st == s.(cursor := r.st.cursor)
    ensures r.st.cursor == Clamp(s.cursor + count, |s.buffer|)
    ensures r.moved == r.st.cursor - s.cursor
    ensures r.out == if r.moved < 0 then [Csi(-r.moved, 'D')] else if r.moved > 0 then [Csi(r.moved, 'C')] else []
  {
    if count < 0 then
      var c := if count < -(s.cursor as int) then -(s.cursor as int) else count;
      Move(s.(cursor := s.cursor + c), c, if c != 0 then [Csi(-c, 'D')] else [])
    else if count > 0 then
      var c := Min(count, |s.buffer| - s.cursor);
      Move(s.(cursor := s.cursor + c), c, if c != 0 then [Csi(c, 'C')] else [])
    else Move(s, 0, [])
  }

  // ---------------------------------------------------------------------------
  // _set_copy_text and _remove_chars

  /** `_set_copy_text(key, count, text)`: text cut by the same key as the last
      one (or the first key) joins the copy buffer, in front for a backward cut
      and behind for a forward one; any other key replaces it. */
  function CopyText(copy: string, lastKey: Option<string>, key: string, count: int, text: string): string {
    if lastKey == Some(key) || lastKey == None then
      if count < 0 then text + copy
      else if count > 0 then copy + text
      else copy
    else text
  }

  /** The span `_remove_chars(count)` deletes, after the cursor has moved to its
      start for a backward deletion. */
  datatype Cut = Cut(st: LineState, start: nat, n: nat, out: seq<string>)

  function CutRange(s: LineState, count: int): (r: Cut)
    requires Valid(s) && !(count < 0 && s.cursor == 0)
    ensures Valid(r.st) && r.st == s.(cursor := r.start) && r.start + r.n <= |s.buffer|
    ensures count < 0 ==> r.start + r.n == s.cursor && r.n == Min(-count, s.cursor)
    ensures count >= 0 ==> r.start == s.cursor && r.n == Clamp(count, |s.buffer| - s.cursor)
  {
    if count < 0 then
      var m := Moved(s, count);
      Cut(m.st, m.st.cursor, -m.moved, m.out)
    else
      var n := if count > 0 then Min(count, |s.buffer| - s.cursor) else 0;
      Cut(s, s.cursor, n, [])
  }

  /** `_remove_chars(count, copy_on_key)` as written: the count handed to
      `_set_copy_text` has already lost its sign, so a backward cut is appended
      to the copy buffer like a forward one. */
  function RemovedAsWritten(s: LineState, count: int, copyOn: Option<string>): (r: Effect)
    requires Valid(s)
    ensures Valid(r.st) && SameSettings(s, r.st) && |r.st.buffer| <= |s.buffer|
    ensures var c := Removed(s, count, copyOn);
            r.out == c.out && r.st.(copyText := c.st.copyText) == c.st
    ensures copyOn.None? ==> r == Removed(s, count, copyOn)
  {
    if count < 0 && s.cursor == 0 then Effect(s, [])
    else
      var c := CutRange(s, count);
      var text := s.buffer[c.start..c.start + c.n];
      var copy := if copyOn.Some? then CopyText(s.copyText, s.lastKey, copyOn.value, c.n, text) else s.copyText;
      Effect(c.st.(buffer := s.buffer[..c.start] + s.buffer[c.start + c.n..], copyText := copy), c.out + [Csi(c.n, 'P')])
  }

  /** `_remove_chars(count, copy_on_key)` with the direction of the cut kept,
      so a backward cut goes in front of the copy buffer. */
  function Removed(s: LineState, count: int, copyOn: Option<string>): (r: Effect)
    requires Valid(s)
    ensures Valid(r.st) && SameSettings(s, r.st) && |r.st.buffer| <= |s.buffer|
    ensures r.st.hist == s.hist && r.st.comp == s.comp
  {
    if count < 0 && s.cursor == 0 then Effect(s, [])
    else
      var c := CutRange(s, count);
      var text := s.buffer[c.start..c.start + c.n];
      var signed := if count < 0 then -(c.n as int) else c.n;
      var copy := if copyOn.Some? then CopyText(s.copyText, s.lastKey, copyOn.value, signed, text) else s.copyText;
      Effect(c.st.(buffer := s.buffer[..c.start] + s.buffer[c.start + c.n..], copyText := copy), c.out + [Csi(c.n, 'P')])
  }

  /** A deletion removes exactly the span between the old cursor and the
      cursor moved by `count` (brought into the buffer), leaves the cursor at
      the start of that span and writes DCH with the span's length. At the
      start of the buffer a backward deletion does nothing. */
  lemma RemoveDeletesSpan(s: LineState, count: int, copyOn: Option<string>)
    requires Valid(s)
    ensures count < 0 && s.cursor == 0 ==> Removed(s, count, copyOn) == Effect(s, [])
    ensures !(count < 0 && s.cursor == 0) ==>
              var a := Min(s.cursor, Clamp(s.cursor + count, |s.buffer|));
              var b := if count < 0 then s.cursor else Clamp(s.cursor + count, |s.buffer|);
              var r := Removed(s, count, copyOn);
              r.st.buffer == s.buffer[..a] + s.buffer[b..] && r.st.cursor == a
              && r.out[|r.out| - 1] == Csi(b - a, 'P')
  {
  }

  /** A cut by the key that made the previous cut joins the copy buffer in
      reading order: in front when cutting backwards, behind when forwards. */
  lemma CutsCoalesce(s: LineState, count: int, key: string)
    requires Valid(s) && s.lastKey == Some(key) && count != 0 && !(count < 0 && s.cursor == 0)
    ensures var c := CutRange(s, count);
            var text := s.buffer[c.start..c.start + c.n];
            Removed(s, count, Some(key)).st.copyText == if count < 0 then text + s.copyText else s.copyText + text
  {
  }

  /** A cut after a different key replaces the copy buffer with the cut text. */
  lemma CutReplacesCopy(s: LineState, count: int, key: string)
    requires Valid(s) && s.lastKey.Some? && s.lastKey != Some(key) && !(count < 0 && s.cursor == 0)
    ensures var c := CutRange(s, count);
            Removed(s, count, Some(key)).st.copyText == s.buffer[c.start..c.start + c.n]
  {
  }

  /** One backward cut of `k` characters as written: the `k` characters
      before the cursor go, and the copy buffer is extended as for a forward
      cut. */
  lemma BackwardCutAsWritten(s: LineState, k: nat, key: string)
    requires Valid(s) && 0 < k <= s.cursor
    ensures var c := s.cursor;
            var w := RemovedAsWritten(s, -(k as int), Some(key)).st;
            Valid(w) && w.buffer == s.buffer[..c - k] + s.buffer[c..] && w.cursor == c - k && w.lastKey == s.lastKey
            && w.copyText == CopyText(s.copyText, s.lastKey, key, k, s.buffer[c - k..c])
            && (s.lastKey == Some(key) ==> w.copyText == s.copyText + s.buffer[c - k..c])
            && (s.lastKey != Some(key) && (s.lastKey.None? ==> s.copyText == "") ==> w.copyText == s.buffer[c - k..c])
  {
    var c := s.cursor;
    assert "" + s.buffer[c - k..c] == s.buffer[c - k..c];
  }

  /** One backward cut of `k` characters with the direction kept. */
  lemma BackwardCut(s: LineState, k: nat, key: string)
    requires Valid(s) && 0 < k <= s.cursor
    ensures var c := s.cursor;
            var r := Removed(s, -(k as int), Some(key)).st;
            Valid(r) && r.buffer == s.buffer[..c - k] + s.buffer[c..] && r.cursor == c - k && r.lastKey == s.lastKey
            && r.copyText == CopyText(s.copyText, s.lastKey, key, -(k as int), s.buffer[c - k..c])
            && (s.lastKey == Some(key) ==> r.copyText == s.buffer[c - k..c] + s.copyText)
            && (s.lastKey != Some(key) && (s.lastKey.None? ==> s.copyText == "") ==> r.copyText == s.buffer[c - k..c])
  {
    var c := s.cursor;
    assert s.buffer[c - k..c] + "" == s.buffer[c - k..c];
  }

  /** Two backward cuts by one key, as written: `s1` is the line after the
      first (with the key recorded as the last one) and `s2` after the second.
      The text cut second, which stood in front of the first, is put behind
      it in the copy buffer. */
  lemma BackwardCutsAsWritten(s: LineState, k1: nat, k2: nat, key: string, s1: LineState, s2: LineState)
    requires Valid(s) && s.lastKey != Some(key) && (s.lastKey.None? ==> s.copyText == "")
    requires 0 < k1 && 0 < k2 && k1 + k2 <= s.cursor
    requires s1 == RemovedAsWritten(s, -(k1 as int), Some(key)).st.(lastKey := Some(key))
    requires s2 == RemovedAsWritten(s1, -(k2 as int), Some(key)).st
    ensures var c := s.cursor;
            s1.buffer == s.buffer[..c - k1] + s.buffer[c..] && s2.buffer == s.buffer[..c - k1 - k2] + s.buffer[c..]
            && s2.copyText == s.buffer[c - k1..c] + s.buffer[c - k1 - k2..c - k1]
  {
    var c := s.cursor;
    BackwardCutAsWritten(s, k1, key);
    BackwardCutAsWritten(s1, k2, key);
    JoinCutsAsWritten(s.buffer, c - k1 - k2, c - k1, c, s1.buffer, s1.copyText, s2.copyText, s2.buffer);
  }

  /** Two backward cuts by one key with the direction kept: the copy buffer
      holds the removed text as it stood in the buffer. */
  lemma BackwardCutsKeepOrder(s: LineState, k1: nat, k2: nat, key: string, s1: LineState, s2: LineState)
    requires Valid(s) && s.lastKey != Some(key) && (s.lastKey.None? ==> s.copyText == "")
    requires 0 < k1 && 0 < k2 && k1 + k2 <= s.cursor
    requires s1 == Removed(s, -(k1 as int), Some(key)).st.(lastKey := Some(key))
    requires s2 == Removed(s1, -(k2 as int), Some(key)).st
    ensures var c := s.cursor;
            s1.buffer == s.buffer[..c - k1] + s.buffer[c..] && s2.buffer == s.buffer[..c - k1 - k2] + s.buffer[c..]
            && s2.copyText == s.buffer[c - k1 - k2..c]
  {
    var c := s.cursor;
    BackwardCut(s, k1, key);
    BackwardCut(s1, k2, key);
    JoinCuts(s.buffer, c - k1 - k2, c - k1, c, s1.buffer, s1.copyText, s2.copyText, s2.buffer);
  }

  /** What two backward cuts leave, as pieces of the original buffer `b`: the
      first cut took `b[m..c]`, the second `b[a..m]` from what was left. */
  lemma JoinCuts(b: string, a: nat, m: nat, c: nat, rest: string, copy1: string, copy2: string, left: string)
    requires a <= m <= c <= |b| && rest == b[..m] + b[c..] && copy1 == b[m..c]
    requires copy2 == rest[a..m] + copy1 && left == rest[..a] + rest[m..]
    ensures copy2 == b[a..c] && left == b[..a] + b[c..]
  {
    assert rest[..a] == b[..a] && rest[m..] == b[c..] && rest[a..m] == b[a..m];
    assert b[a..c] == b[a..m] + b[m..c];
  }

  /** The same pieces when the second cut is put behind the first. */
  lemma JoinCutsAsWritten(b: string, a: nat, m: nat, c: nat, rest: string, copy1: string, copy2: string, left: string)
    requires a <= m <= c <= |b| && rest == b[..m] + b[c..] && copy1 == b[m..c]
    requires copy2 == copy1 + rest[a..m] && left == rest[..a] + rest[m..]
    ensures copy2 == b[m..c] + b[a..m] && left == b[..a] + b[c..]
  {
    assert rest[..a] == b[..a] && rest[m..] == b[c..] && rest[a..m] == b[a..m];
  }

  /** Two `CTRL_W` presses at the end of "foo bar", as written: the copy buffer
      ends up "barfoo " instead of the text that was removed, "foo bar". */
  lemma CopyOrderAsWritten()
    ensures var s0 := InitialLine().(buffer := "foo bar", cursor := 7);
            var s1 := RemovedAsWritten(s0, -3, Some("CTRL_W")).st.(lastKey := Some("CTRL_W"));
            var s2 := RemovedAsWritten(s1, -4, Some("CTRL_W")).st;
            s1.buffer == "foo " && s2.buffer == "" && s2.copyText == "barfoo "
  {
    var s0 := InitialLine().(buffer := "foo bar", cursor := 7);
    var s1 := RemovedAsWritten(s0, -3, Some("CTRL_W")).st.(lastKey := Some("CTRL_W"));
    BackwardCutsAsWritten(s0, 3, 4, "CTRL_W", s1, RemovedAsWritten(s1, -4, Some("CTRL_W")).st);
    FooBarPieces(s0.buffer);
  }

  /** The same two presses with the direction kept: the copy buffer holds
      "foo bar", the text as it stood. */
  lemma CopyOrderCorrected()
    ensures var s0 := InitialLine().(buffer := "foo bar", cursor := 7);
            var s1 := Removed(s0, -3, Some("CTRL_W")).st.(lastKey := Some("CTRL_W"));
            var s2 := Removed(s1, -4, Some("CTRL_W")).st;
            s1.buffer == "foo " && s2.buffer == "" && s2.copyText == "foo bar"
  {
    var s0 := InitialLine().(buffer := "foo bar", cursor := 7);
    var s1 := Removed(s0, -3, Some("CTRL_W")).st.(lastKey := Some("CTRL_W"));
    BackwardCutsKeepOrder(s0, 3, 4, "CTRL_W", s1, Removed(s1, -4, Some("CTRL_W")).st);
    FooBarPieces(s0.buffer);
  }

  lemma FooBarPieces(b: string)
    requires b == "foo bar"
    ensures b[..4] + b[7..] == "foo " && b[..0] + b[7..] == "" && b[0..7] == "foo bar"
    ensures b[4..7] + b[0..4] == "barfoo "
  {
  }



  // ---------------------------------------------------------------------------
  // _add_chars

  /** `_add_chars(chars)`: inserted at the cursor, which moves past them, unless
      the result would exceed the maximum length. In the middle of the buffer
      the rest of the line is rewritten and the cursor moved back over it. */
  function Added(s: LineState, chars: string): (r: Effect)
    requires Valid(s)
    ensures Valid(r.st) && SameSettings(s, r.st) && (Bounded(s) ==> Bounded(r.st))
    ensures |s.buffer| + |chars| > s.maxLength ==> r == Effect(s, [])
    ensures |s.buffer| + |chars| <= s.maxLength ==>
              r.st == s.(buffer := s.buffer[..s.cursor] + chars + s.buffer[s.cursor..], cursor := s.cursor + |chars|)
  {
    if |s.buffer| + |chars| > s.maxLength then Effect(s, [])
    else if s.cursor == |s.buffer| then
      assert s.buffer[s.cursor..] == [] && s.buffer[..s.cursor] == s.buffer;
      Effect(s.(buffer := s.buffer + chars, cursor := s.cursor + |chars|), [chars])
    else
      var rest := s.buffer[s.cursor..];
      var t := s.(buffer := s.buffer[..s.cursor] + chars + rest, cursor := s.cursor + |chars| + |rest|);
      var m := Moved(t, -|rest|);
      Effect(m.st, [chars + rest] + m.out)
  }

  // ---------------------------------------------------------------------------
  // _get_word_start and _get_word_end

  /** From position `i` leftwards, the first position that is not part of the run
      of spaces (`spaces`) or non-spaces; -1 past the start. */
  function SkipLeft(b: string, i: int, spaces: bool): (j: int)
    requires -1 <= i < |b|
    ensures -1 <= j <= i
    ensures forall k :: j < k <= i ==> (b[k] == ' ') == spaces
    ensures j == -1 || (b[j] == ' ') != spaces
    decreases i + 1
  {
    if i >= 0 && (b[i] == ' ') == spaces then SkipLeft(b, i - 1, spaces) else i
  }

  /** From position `i` rightwards, the first position that is not part of the
      run; `|b|` past the end. */
  function SkipRight(b: string, i: nat, spaces: bool): (j: nat)
    requires i <= |b|
    ensures i <= j <= |b|
    ensures forall k :: i <= k < j ==> (b[k] == ' ') == spaces
    ensures j == |b| || (b[j] == ' ') != spaces
    decreases |b| - i
  {
    if i < |b| && (b[i] == ' ') == spaces then SkipRight(b, i + 1, spaces) else i
  }

  /** `_get_word_start()`: the offset (at most 0) to the start of the word
      before the cursor. The span it covers is a run of non-spaces followed by
      a run of spaces up to the cursor, and it starts at the beginning of the
      buffer or just after a space; only a buffer start ends a span with no
      word in it. */
  function WordStart(b: string, cursor: nat): (r: int)
    requires cursor <= |b|
    ensures -(cursor as int) <= r <= 0
    ensures var a := cursor + r;
            var m := SkipLeft(b, cursor - 1, true) + 1;
            a <= m <= cursor
            && (forall k :: a <= k < m ==> b[k] != ' ')
            && (forall k :: m <= k < cursor ==> b[k] == ' ')
            && (a == 0 || b[a - 1] == ' ')
            && (a < m || a == 0)
  {
    var i := SkipLeft(b, cursor - 1, true);
    var j := SkipLeft(b, i, false);
    assert j + 1 <= i + 1 <= cursor;
    j - cursor + 1
  }

  /** `_get_word_end()`: the offset (at least 0) to the end of the word after
      the cursor: a run of spaces, then a run of non-spaces, ending at the end
      of the buffer or at a space. */
  function WordEnd(b: string, cursor: nat): (r: nat)
    requires cursor <= |b|
    ensures r <= |b| - cursor
    ensures var e := cursor + r;
            var m := SkipRight(b, cursor, true);
            cursor <= m <= e
            && (forall k :: cursor <= k < m ==> b[k] == ' ')
            && (forall k :: m <= k < e ==> b[k] != ' ')
            && (e == |b| || b[e] == ' ')
            && (m < e || e == |b|)
  {
    var i := SkipRight(b, cursor, true);
    var j := SkipRight(b, i, false);
    j - cursor
  }

  // ---------------------------------------------------------------------------
  // _replace_buffer and _clear_screen

  /** `_replace_buffer(text)`: nothing happens when the text is already there;
      otherwise the line is erased from its start and the new text added, which
      leaves an empty buffer when the new text is too long. */
  function Replaced(s: LineState, text: string): (r: Effect)
    requires Valid(s)
    ensures Valid(r.st)
    ensures text == s.buffer ==> r == Effect(s, [])
    ensures text != s.buffer && |text| <= s.maxLength ==> r.st.buffer == text && r.st.cursor == |text|
    ensures text != s.buffer && |text| > s.maxLength ==> r.st.buffer == "" && r.st.cursor == 0
    ensures SameSettings(s, r.st) && (Bounded(s) ==> Bounded(r.st))
    ensures r.st.copyText == s.copyText && r.st.lastKey == s.lastKey
    ensures r.st.hist == s.hist && r.st.comp == s.comp
  {
    if text == s.buffer then Effect(s, [])
    else
      var m := Moved(s, -(s.cursor as int));
      var cleared := m.st.(buffer := "", cursor := 0);
      var a := Added(cleared, text);
      Effect(a.st, m.out + [EraseToEnd()] + a.out)
  }

  /** `_clear_screen(clear_buffer)`: clear and home; then either empty the
      buffer, or redraw prompt and buffer and move back to the cursor. */
  function ClearedScreen(s: LineState, clearBuffer: bool): (r: Effect)
    requires Valid(s)
    ensures Valid(r.st) && |r.out| >= 1 && r.out[0] == ClearAndHome()
    ensures clearBuffer ==> r.st == s.(buffer := "", cursor := 0) && |r.out| == 1
    ensures !clearBuffer ==> r.st == s && |r.out| == 3 && r.out[1] == s.promptString + s.buffer
  {
    if clearBuffer then Effect(s.(buffer := "", cursor := 0), [ClearAndHome()])
    else Effect(s, [ClearAndHome(), s.promptString + s.buffer, Csi(|s.buffer| - s.cursor, 'D')])
  }

  // ---------------------------------------------------------------------------
  // _process_key

  /** The cursor keys: LEFT/CTRL_B, RIGHT/CTRL_F, HOME/CTRL_A, END/CTRL_E and
      the word motions ALT_B and ALT_F. */
  function MotionKey(s: LineState, name: string): (r: Option<Effect>)
    requires Valid(s)
    ensures r.Some? ==> Valid(r.value.st) && r.value.st == s.(cursor := r.value.st.cursor)
  {
    var b := s.buffer;
    var c := s.cursor;
    var count :=
      if name == "LEFT" || name == "CTRL_B" then Some(-1)
      else if name == "RIGHT" || name == "CTRL_F" then Some(1)
      else if name == "HOME" || name == "CTRL_A" then Some(-(c as int))
      else if name == "END" || name == "CTRL_E" then Some(|b| - c)
      else if name == "ALT_B" then Some(WordStart(b, c))
      else if name == "ALT_F" then Some(WordEnd(b, c))
      else None;
    match count
    case None => None
    case Some(k) =>
      var m := Moved(s, k);
      Some(Effect(m.st, m.out))
  }

  /** The deleting keys: BACKSPACE/CTRL_H and DELETE, and the cutting keys
      CTRL_K, CTRL_U, CTRL_W and ALT_D, which fill the copy buffer. */
  function DeletionKey(s: LineState, name: string): (r: Option<Effect>)
    requires Valid(s)
    ensures r.Some? ==> Valid(r.value.st) && SameSettings(s, r.value.st) && |r.value.st.buffer| <= |s.buffer|
  {
    var b := s.buffer;
    var c := s.cursor;
    var cut: Option<(int, Option<string>)> :=
      if name == "BACKSPACE" || name == "CTRL_H" then Some((-1, None))
      else if name == "DELETE" then Some((1, None))
      else if name == "CTRL_K" then Some((|b| - c, Some(name)))
      else if name == "CTRL_U" then Some((-(c as int), Some(name)))
      else if name == "CTRL_W" then Some((WordStart(b, c), Some(name)))
      else if name == "ALT_D" then Some((WordEnd(b, c), Some(name)))
      else None;
    match cut
    case None => None
    case Some((count, copyOn)) => Some(Removed(s, count, copyOn))
  }

  /** Tab completion, CTRL_L redraw, CTRL_Y yank and history browsing with
      UP/CTRL_P and DOWN/CTRL_N, each only when its feature is enabled. */
  function FeatureKey(s: LineState, name: string): (r: Option<Effect>)
    requires Valid(s)
    ensures r.Some? ==> Valid(r.value.st) && SameSettings(s, r.value.st) && (Bounded(s) ==> Bounded(r.value.st))
  {
    var b := s.buffer;
    if name == "CTRL_I" && s.comp.enabled && s.commandsEnabled then
      var (comp, text) := Autocomplete.Completed(s.comp, b);
      Some(Replaced(s.(comp := comp), text))
    else if name == "CTRL_L" && s.clearScreenEnabled then Some(ClearedScreen(s, false))
    else if name == "CTRL_Y" && s.copyText != "" then Some(Added(s, s.copyText))
    else if (name == "UP" || name == "CTRL_P") && s.hist.enabled && s.commandsEnabled then
      var (hist, text) := History.Browsed(s.hist, History.Prev, b);
      Some(Replaced(s.(hist := hist), text))
    else if (name == "DOWN" || name == "CTRL_N") && s.hist.enabled && s.commandsEnabled then
      var (hist, text) := History.Browsed(s.hist, History.Next, b);
      Some(Replaced(s.(hist := hist), text))
    else None
  }

  /** The edit a non-character key makes, or None when `_process_key` does not
      handle it. The three groups name disjoint keys, so trying them in turn
      is the source's single `elif` chain. */
  function EditKey(s: LineState, name: string): (r: Option<Effect>)
    requires Valid(s)
    ensures r.Some? ==> Valid(r.value.st) && SameSettings(s, r.value.st) && (Bounded(s) ==> Bounded(r.value.st))
  {
    var motion := MotionKey(s, name);
    if motion.Some? then motion
    else
      var deletion := DeletionKey(s, name);
      if deletion.Some? then deletion
      else FeatureKey(s, name)
  }

  /** The state after a key, what was written, and whether the key was handled. */
  datatype Processed = Processed(st: LineState, out: seq<string>, done: bool)

  /** `_process_key(type, key)`: any key but Tab first resets completion; a
      character is inserted; a handled key becomes the last key. */
  function ProcessKey(s: LineState, key: Key): (r: Processed)
    requires Valid(s)
    ensures Valid(r.st) && SameSettings(s, r.st)
    ensures Bounded(s) ==> Bounded(r.st)
    ensures key.kind == CharKey ==> r.done
  {
    var s1 := ResetCompletion(s, key.name);
    if key.kind == CharKey then
      var e := Added(s1, key.name);
      Processed(e.st, e.out, true)
    else
      match EditKey(s1, key.name)
      case None => Processed(s1, [], false)
      case Some(e) => Processed(e.st.(lastKey := Some(key.name)), e.out, true)
  }

  function ControlKey(name: string): Key {
    Key(CtrlCode, name)
  }

  function EscapeKey(name: string): Key {
    Key(EscapeCode, name)
  }

  /** A key `_process_key` does not handle leaves buffer, cursor, copy buffer,
      last key and history alone and writes nothing; only completion is reset. */
  lemma UnhandledKeyInert(s: LineState, key: Key)
    requires Valid(s) && !ProcessKey(s, key).done
    ensures var r := ProcessKey(s, key);
            r.out == [] && r.st.buffer == s.buffer && r.st.cursor == s.cursor
            && r.st.copyText == s.copyText && r.st.lastKey == s.lastKey && r.st.hist == s.hist
            && (s.comp.enabled && key.name != "CTRL_I" ==> r.st.comp == Autocomplete.Cleaned(s.comp))
  {
  }

  /** BACKSPACE removes the character before the cursor and steps back; at the
      start of the buffer it does nothing. */
  lemma BackspaceRemovesPrevious(s: LineState)
    requires Valid(s)
    ensures var r := ProcessKey(s, ControlKey("BACKSPACE"));
            r.done && r.st.lastKey == Some("BACKSPACE")
            && (s.cursor > 0 ==> r.st.buffer == s.buffer[..s.cursor - 1] + s.buffer[s.cursor..] && r.st.cursor == s.cursor - 1)
            && (s.cursor == 0 ==> r.st.buffer == s.buffer && r.st.cursor == 0 && r.out == [])
  {
    var s1 := ResetCompletion(s, "BACKSPACE");
    assert MotionKey(s1, "BACKSPACE") == None;
    RemoveDeletesSpan(s1, -1, None);
  }

  /** DELETE removes the character under the cursor; at the end of the buffer it
      removes nothing. */
  lemma DeleteRemovesCurrent(s: LineState)
    requires Valid(s)
    ensures var r := ProcessKey(s, EscapeKey("DELETE"));
            r.done && r.st.cursor == s.cursor
            && (s.cursor < |s.buffer| ==> r.st.buffer == s.buffer[..s.cursor] + s.buffer[s.cursor + 1..])
            && (s.cursor == |s.buffer| ==> r.st.buffer == s.buffer)
  {
    var s1 := ResetCompletion(s, "DELETE");
    assert MotionKey(s1, "DELETE") == None;
    DeletionAtCursor(s1);
    EditApplied(s, EscapeKey("DELETE"), DeletionKey(s1, "DELETE").value);
  }

  /** The deletion DELETE stands for removes the character under the cursor. */
  lemma DeletionAtCursor(s: LineState)
    requires Valid(s)
    ensures var e := DeletionKey(s, "DELETE");
            e.Some? && e.value.st.cursor == s.cursor
            && (s.cursor < |s.buffer| ==> e.value.st.buffer == s.buffer[..s.cursor] + s.buffer[s.cursor + 1..])
            && (s.cursor == |s.buffer| ==> e.value.st.buffer == s.buffer)
  {
    assert DeletionKey(s, "DELETE") == Some(Removed(s, 1, None));
    RemoveDeletesSpan(s, 1, None);
  }

  /** Any key but Tab first resets completion. */
  function ResetCompletion(s: LineState, name: string): (r: LineState)
    ensures r.buffer == s.buffer && r.cursor == s.cursor && r.hist == s.hist && r.copyText == s.copyText
    ensures r.lastKey == s.lastKey && SameSettings(s, r) && r.comp.enabled == s.comp.enabled
  {
    if name != "CTRL_I" && s.comp.enabled then s.(comp := Autocomplete.Cleaned(s.comp)) else s
  }

  /** A handled non-character key applies its edit and becomes the last key. */
  lemma EditApplied(s: LineState, k: Key, e: Effect)
    requires Valid(s) && k.kind != CharKey && EditKey(ResetCompletion(s, k.name), k.name) == Some(e)
    ensures ProcessKey(s, k) == Processed(e.st.(lastKey := Some(k.name)), e.out, true)
  {
  }

  /** CTRL_K cuts from the cursor to the end and keeps the cursor. */
  lemma KillToEnd(s: LineState)
    requires Valid(s)
    ensures var r := ProcessKey(s, ControlKey("CTRL_K"));
            r.done && r.st.buffer == s.buffer[..s.cursor] && r.st.cursor == s.cursor
            && r.st.lastKey == Some("CTRL_K")
  {
    var s1 := ResetCompletion(s, "CTRL_K");
    assert MotionKey(s1, "CTRL_K") == None;
    assert DeletionKey(s1, "CTRL_K") == Some(Removed(s1, |s.buffer| - s.cursor, Some("CTRL_K")));
    EditApplied(s, ControlKey("CTRL_K"), Removed(s1, |s.buffer| - s.cursor, Some("CTRL_K")));
    RemoveDeletesSpan(s1, |s.buffer| - s.cursor, Some("CTRL_K"));
    assert s.buffer[..s.cursor] + s.buffer[|s.buffer|..] == s.buffer[..s.cursor];
  }

  /** CTRL_U cuts from the start to the cursor and leaves the cursor at 0; the
      copy buffer holds the cut text when another key was the last one. */
  lemma KillToStart(s: LineState)
    requires Valid(s)
    ensures var r := ProcessKey(s, ControlKey("CTRL_U"));
            r.done && r.st.buffer == s.buffer[s.cursor..] && r.st.cursor == 0
            && r.st.lastKey == Some("CTRL_U") && r.st.maxLength == s.maxLength
            && (s.cursor > 0 && s.lastKey.Some? && s.lastKey != Some("CTRL_U") ==> r.st.copyText == s.buffer[..s.cursor])
  {
    var s1 := ResetCompletion(s, "CTRL_U");
    assert MotionKey(s1, "CTRL_U") == None;
    DeletionToStart(s1);
    EditApplied(s, ControlKey("CTRL_U"), DeletionKey(s1, "CTRL_U").value);
  }

  /** The deletion CTRL_U stands for cuts everything before the cursor. */
  lemma DeletionToStart(s: LineState)
    requires Valid(s)
    ensures var e := DeletionKey(s, "CTRL_U");
            e.Some? && e.value.st.buffer == s.buffer[s.cursor..] && e.value.st.cursor == 0
            && (s.cursor > 0 && s.lastKey.Some? && s.lastKey != Some("CTRL_U") ==> e.value.st.copyText == s.buffer[..s.cursor])
  {
    assert DeletionKey(s, "CTRL_U") == Some(Removed(s, -(s.cursor as int), Some("CTRL_U")));
    EmptyPrefixJoin(s.buffer, s.cursor);
    if s.cursor > 0 {
      BackwardCut(s, s.cursor, "CTRL_U");
    }
  }

  lemma EmptyPrefixJoin(b: string, c: nat)
    requires c <= |b|
    ensures b[..0] + b[c..] == b[c..] && b[0..c] == b[..c] && b[0..] == b
  {
  }

  /** CTRL_Y inserts the copy buffer at the cursor and moves past it, when
      it fits. */
  lemma YankInserts(t: LineState)
    requires Valid(t) && t.copyText != "" && |t.buffer| + |t.copyText| <= t.maxLength
    ensures var r := ProcessKey(t, ControlKey("CTRL_Y"));
            r.done && r.st.buffer == t.buffer[..t.cursor] + t.copyText + t.buffer[t.cursor..]
            && r.st.cursor == t.cursor + |t.copyText| && r.st.lastKey == Some("CTRL_Y")
  {
    var u := ResetCompletion(t, "CTRL_Y");
    assert MotionKey(u, "CTRL_Y") == None;
    assert DeletionKey(u, "CTRL_Y") == None;
    assert FeatureKey(u, "CTRL_Y") == Some(Added(u, t.copyText));
    EditApplied(t, ControlKey("CTRL_Y"), Added(u, t.copyText));
  }

  /** Cutting to the start and yanking straight back restores the line. */
  lemma KillThenYankRestores(s: LineState)
    requires Valid(s) && s.cursor > 0 && s.lastKey.Some? && s.lastKey != Some("CTRL_U")
    requires |s.buffer| <= s.maxLength
    ensures var r1 := ProcessKey(s, ControlKey("CTRL_U"));
            var r2 := ProcessKey(r1.st, ControlKey("CTRL_Y"));
            r2.st.buffer == s.buffer && r2.st.cursor == s.cursor
  {
    KillToStart(s);
    var t := ProcessKey(s, ControlKey("CTRL_U")).st;
    YankInserts(t);
    RejoinAtStart(s.buffer, s.cursor, t.buffer);
  }

  /** Putting back the cut head in front of what was left gives the text. */
  lemma RejoinAtStart(b: string, c: nat, rest: string)
    requires c <= |b| && rest == b[c..]
    ensures rest[..0] + b[..c] + rest[0..] == b
  {
    assert b == b[..c] + b[c..];
  }

  /** Typing "abc", pressing LEFT twice and then BACKSPACE leaves "bc" with the
      cursor at 0. */
  lemma TypingScenario()
    ensures var s1 := ProcessKey(InitialLine(), Key(CharKey, "a")).st;
            var s2 := ProcessKey(s1, Key(CharKey, "b")).st;
            var s3 := ProcessKey(s2, Key(CharKey, "c")).st;
            var s4 := ProcessKey(s3, EscapeKey("LEFT")).st;
            var s5 := ProcessKey(s4, EscapeKey("LEFT")).st;
            var s6 := ProcessKey(s5, ControlKey("BACKSPACE")).st;
            s3.buffer == "abc" && s5.cursor == 1 && s6.buffer == "bc" && s6.cursor == 0
  {
    var s1 := ProcessKey(InitialLine(), Key(CharKey, "a")).st;
    assert s1.buffer == "a" && s1.cursor == 1;
    var s2 := ProcessKey(s1, Key(CharKey, "b")).st;
    assert s2.buffer == "ab" && s2.cursor == 2;
    var s3 := ProcessKey(s2, Key(CharKey, "c")).st;
    assert s3.buffer == "abc" && s3.cursor == 3;
    var s4 := ProcessKey(s3, EscapeKey("LEFT")).st;
    assert s4.buffer == "abc" && s4.cursor == 2;
    var s5 := ProcessKey(s4, EscapeKey("LEFT")).st;
    assert s5.buffer == "abc" && s5.cursor == 1;
    BackspaceRemovesPrevious(s5);
    assert s5.buffer[..0] + s5.buffer[1..] == "bc";
  }

  // ---------------------------------------------------------------------------
  // _internal_commands, keyboard_interrupt and read_non_blocking

  /** One line of the `history` listing: the position right-aligned in three
      columns, a colon, the entry. */
  function HistoryLine(i: nat, entry: string): string {
    PadLeft(NatToString(i), 3) + ": " + entry + "\r\n"
  }

  function HistoryListing(entries: seq<string>): (r: seq<string>)
    ensures |r| == |entries| && forall i :: 0 <= i < |r| ==> r[i] == HistoryLine(i, entries[i])
  {
    seq(|entries|, i requires 0 <= i < |entries| => HistoryLine(i, entries[i]))
  }

  /** What Enter submits: handled locally (Internal) or a line to return. */
  datatype Command = Internal | Submit(line: string)

  datatype CommandResult = CommandResult(st: LineState, out: seq<string>, command: Command)

  /** `_internal_commands()`: with history enabled, "clear" clears the screen
      and the buffer, "history" lists the entries, and a `!` token that recalls
      a non-empty entry echoes it and submits it; otherwise the stripped buffer
      is submitted. */
  function InternalCommands(s: LineState): (r: CommandResult)
    requires Valid(s)
    ensures Valid(r.st) && r.st.hist == s.hist
    ensures r.command.Submit? ==> r.command.line == Strip(s.buffer) || r.command.line in s.hist.entries
  {
    var b := Strip(s.buffer);
    if s.hist.enabled && |b| > 0 then
      if b == "clear" then
        var e := ClearedScreen(s, true);
        CommandResult(e.st, e.out, Internal)
      else if b == "history" then CommandResult(s, HistoryListing(s.hist.entries), Internal)
      else if b[0] == '!' then
        match History.Recall(s.hist.entries, b)
        case Some(entry) =>
          if entry != "" then
            RecallIsEntry(s.hist.entries, b);
            CommandResult(s.(buffer := "", cursor := 0), [entry + "\r\n"], Submit(entry))
          else CommandResult(s, [], Submit(b))
        case None => CommandResult(s, [], Submit(b))
      else CommandResult(s, [], Submit(b))
    else CommandResult(s, [], Submit(b))
  }

  /** A recalled entry is one of the entries. */
  lemma RecallIsEntry(entries: seq<string>, command: string)
    ensures History.Recall(entries, command).Some? ==> History.Recall(entries, command).value in entries
  {
  }

  /** `keyboard_interrupt()`: a new line, an empty buffer, and a fresh prompt
      on the next read. */
  function Interrupted(s: LineState): (r: Effect)
    ensures r.st.buffer == "" && r.st.cursor == 0 && r.st.newPrompt && r.out == ["\r\n"]
    ensures r.st.hist == s.hist && r.st.copyText == s.copyText
  {
    Effect(s.(buffer := "", cursor := 0, newPrompt := true), ["\r\n"])
  }

  /** The state after a read, what was written and the line returned, if any. */
  datatype Outcome = Outcome(st: LineState, out: seq<string>, line: Option<string>)

  /** The start of `read_non_blocking(prompt)`: a pending new prompt is written
      with whatever is in the buffer. */
  function PromptShown(s: LineState, prompt: string): (r: Effect)
    requires Valid(s)
    ensures Valid(r.st) && !r.st.newPrompt
    ensures r.st.commandsEnabled == s.commandsEnabled && r.st.hist == s.hist
    ensures s.newPrompt ==> r.st.promptString == prompt && |r.out| >= 1 && r.out[0] == prompt
    ensures !s.newPrompt ==> r == Effect(s, [])
  {
    if s.newPrompt then
      var t := s.(newPrompt := false, promptString := prompt);
      if s.buffer != "" then Effect(t, [prompt, s.buffer]) else Effect(t.(buffer := "", cursor := 0), [prompt])
    else Effect(s, [])
  }

  /** Enter: a line submitted goes into the history, the buffer is emptied and
      the next read writes a new prompt. An internal command writes the prompt
      again and returns nothing. */
  function Entered(s: LineState, prompt: string): (r: Outcome)
    requires Valid(s) && s.commandsEnabled
    ensures Valid(r.st) && r.st.buffer == "" && r.st.cursor == 0
    ensures r.line.Some? ==> r.st.newPrompt
  {
    var c := InternalCommands(s);
    var o := Concluded(c.st, c.command, prompt);
    Outcome(o.st, ["\r\n"] + c.out + o.out, o.line)
  }

  /** What Enter does once the command has been handled: an internal command
      writes the prompt again; a submitted line is recorded and returned. */
  function Concluded(s: LineState, command: Command, prompt: string): (r: Outcome)
    requires Valid(s)
    ensures Valid(r.st) && r.st.buffer == "" && r.st.cursor == 0
    ensures r.line.Some? ==> r.st.newPrompt
  {
    match command
    case Internal => Outcome(s.(buffer := "", cursor := 0), [prompt], None)
    case Submit(line) =>
      var hist := if s.hist.enabled then History.Appended(s.hist, line) else s.hist;
      Outcome(s.(hist := hist, newPrompt := true, buffer := "", cursor := 0), [], Some(line))
  }

  /** `read_non_blocking(prompt)` once the key has been read. With commands
      disabled the source reaches `buffer` unbound on Enter, so that case is
      excluded. */
  function ReadStep(s: LineState, key: Option<Key>, prompt: string): (r: Outcome)
    requires Valid(s)
    requires s.commandsEnabled || key.None? || key.value.kind == CharKey || key.value.name != "CTRL_M"
    ensures Valid(r.st)
    ensures r.line.Some? ==> key.Some? && key.value.kind != CharKey && key.value.name == "CTRL_M"
    ensures r.line.Some? ==> r.st.buffer == "" && r.st.cursor == 0 && r.st.newPrompt
  {
    var p := PromptShown(s, prompt);
    match key
    case None => Outcome(p.st, p.out, None)
    case Some(k) =>
      var o := KeyStep(p.st, k, prompt);
      Outcome(o.st, p.out + o.out, o.line)
  }

  /** The part of `read_non_blocking` after a key has been read: the key is
      processed, and an unhandled Enter submits the line. */
  function KeyStep(s: LineState, k: Key, prompt: string): (r: Outcome)
    requires Valid(s)
    requires s.commandsEnabled || k.kind == CharKey || k.name != "CTRL_M"
    ensures Valid(r.st)
    ensures r.line.Some? ==> k.kind != CharKey && k.name == "CTRL_M"
    ensures r.line.Some? ==> r.st.buffer == "" && r.st.cursor == 0 && r.st.newPrompt
  {
    var r := ProcessKey(s, k);
    if r.done then Outcome(r.st, r.out, None)
    else if k.name == "CTRL_M" then
      var e := Entered(r.st, prompt);
      Outcome(e.st, r.out + e.out, e.line)
    else Outcome(r.st, r.out, None)
  }

  /** No edit handles CTRL_M, so Enter reaches the command handling with
      completion reset and nothing written. */
  lemma EnterUnhandled(s: LineState, k: Key)
    requires Valid(s) && k.kind != CharKey && k.name == "CTRL_M"
    ensures ProcessKey(s, k) == Processed(ResetCompletion(s, k.name), [], false)
  {
    var s1 := ResetCompletion(s, k.name);
    assert MotionKey(s1, k.name) == None;
    assert DeletionKey(s1, k.name) == None;
    assert FeatureKey(s1, k.name) == None;
  }

  /** With no prompt pending, Enter is the command handling on the state with
      completion reset. */
  lemma EnterReads(s: LineState, prompt: string)
    requires Valid(s) && s.commandsEnabled && !s.newPrompt
    ensures var s1 := ResetCompletion(s, "CTRL_M");
            var e := Entered(s1, prompt);
            ReadStep(s, Some(ControlKey("CTRL_M")), prompt) == Outcome(e.st, e.out, e.line)
  {
    EnterUnhandled(s, ControlKey("CTRL_M"));
  }

  /** Enter on an ordinary line returns it stripped, records it in the history
      and empties the buffer. */
  lemma EnterSubmitsLine(s: LineState, prompt: string)
    requires Valid(s) && s.commandsEnabled && !s.newPrompt
    requires var b := Strip(s.buffer);
             !s.hist.enabled || b == [] || (b != "clear" && b != "history" && b[0] != '!')
    ensures var r := ReadStep(s, Some(ControlKey("CTRL_M")), prompt);
            r.line == Some(Strip(s.buffer)) && r.st.buffer == "" && r.st.cursor == 0 && r.st.newPrompt
            && r.st.hist == (if s.hist.enabled then History.Appended(s.hist, Strip(s.buffer)) else s.hist)
  {
    EnterReads(s, prompt);
    var s1 := ResetCompletion(s, "CTRL_M");
    assert InternalCommands(s1) == CommandResult(s1, [], Submit(Strip(s.buffer)));
  }

  /** "clear" and "history" are handled locally when history is enabled: nothing
      is returned, the history is not touched and the prompt is written again. */
  lemma EnterInternalCommand(s: LineState, prompt: string)
    requires Valid(s) && s.commandsEnabled && !s.newPrompt && s.hist.enabled
    requires Strip(s.buffer) == "clear" || Strip(s.buffer) == "history"
    ensures var r := ReadStep(s, Some(ControlKey("CTRL_M")), prompt);
            r.line == None && r.st.buffer == "" && r.st.hist == s.hist
            && |r.out| >= 2 && r.out[0] == "\r\n" && r.out[|r.out| - 1] == prompt
  {
    EnterReads(s, prompt);
    var s1 := ResetCompletion(s, "CTRL_M");
    assert InternalCommands(s1).command == Internal;
  }

  /** A `!` token that recalls a non-empty entry echoes and submits that entry. */
  lemma EnterRecallsEntry(s: LineState, prompt: string, entry: string)
    requires Valid(s) && s.commandsEnabled && !s.newPrompt && s.hist.enabled
    requires Strip(s.buffer) != [] && Strip(s.buffer)[0] == '!'
    requires History.Recall(s.hist.entries, Strip(s.buffer)) == Some(entry) && entry != ""
    ensures var r := ReadStep(s, Some(ControlKey("CTRL_M")), prompt);
            r.line == Some(entry) && r.st.hist == History.Appended(s.hist, entry)
            && r.out == ["\r\n", entry + "\r\n"]
  {
    EnterReads(s, prompt);
    var s1 := ResetCompletion(s, "CTRL_M");
    assert Strip(s.buffer) != "clear" && Strip(s.buffer) != "history";
    assert InternalCommands(s1) == CommandResult(s1.(buffer := "", cursor := 0), [entry + "\r\n"], Submit(entry));
  }
}
