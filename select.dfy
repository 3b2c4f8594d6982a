/** `Select`: a single-choice list on the terminal. One option is marked as
    chosen ("[x]"), one line is highlighted by the cursor; Space or "x" marks
    the highlighted option and Enter returns the marked one. Cursor motion
    uses CNL and CPL (sections 8.3.12 and 8.3.13 of ECMA-48, `ESC [ n E`,
    `ESC [ n F`) followed by CHA to column 3 (section 8.3.9, `ESC [ 3 G`). */
module Select {
  import opened Common
  import opened Serial
  import opened Input

  /** One option: the value returned and the label shown (`label`). */
  datatype Choice = Choice(value: string, title: string)

  datatype SelectState = SelectState(
    rendered: bool,
    options: seq<Choice>,
    /** The marked value. */
    active: Option<string>,
    /** The line of the marked option. */
    activeIndex: Option<int>,
    /** The highlighted line. */
    activeLine: Option<int>,
    question: Option<string>)

  /** The state before any setter: nothing rendered, no options. */
  const Initial := SelectState(false, [], None, None, None, None)

  /** `ESC [ n F` (up) or `ESC [ n E` (down), then `ESC [ 3 G`. */
  function MoveEscape(distance: nat, final: char): string {
    [ESC] + "[" + NatToString(distance) + ([final] + [ESC] + "[3G")
  }

  /** The distance and the direction can be read back from the escape. */
  lemma MoveEscapeInjective(m: nat, f: char, n: nat, g: char)
    requires !IsDigit(f) && !IsDigit(g) && MoveEscape(m, f) == MoveEscape(n, g)
    ensures m == n && f == g
  {
    var x, y := MoveEscape(m, f), MoveEscape(n, g);
    assert x[2..] == NatToString(m) + ([f] + [ESC] + "[3G");
    assert y[2..] == NatToString(n) + ([g] + [ESC] + "[3G");
    DigitsPrefixUnique(NatToString(m), NatToString(n), [f] + [ESC] + "[3G", [g] + [ESC] + "[3G");
    NatToStringInjective(m, n);
  }

  /** `_move_cursor(count)`: `count` lines down (positive) or up (negative),
      back to column 3; nothing for 0. */
  function LineMove(count: int): (out: seq<string>)
    ensures count == 0 <==> out == []
    ensures count < 0 ==> out == [MoveEscape(-count, 'F')]
    ensures count > 0 ==> out == [MoveEscape(count, 'E')]
  {
    if count < 0 then [MoveEscape(-count, 'F')]
    else if count > 0 then [MoveEscape(count, 'E')]
    else []
  }

  /** Distinct moves write differently. */
  lemma LineMoveInjective(a: int, b: int)
    requires LineMove(a) == LineMove(b)
    ensures a == b
  {
    if a != 0 && b != 0 {
      MoveEscapeInjective(if a < 0 then -a else a, if a < 0 then 'F' else 'E',
                          if b < 0 then -b else b, if b < 0 then 'F' else 'E');
    }
  }

  /** The mark of an option line. */
  function Mark(chosen: bool): string {
    if chosen then "x" else " "
  }

  /** The text of an option line: its mark, then its label or a step back
      onto the mark. */
  function OptionText(chosen: bool, title: string, renderLabel: bool): string {
    if renderLabel then [ESC] + "[G [" + Mark(chosen) + "] " + title + "\r\n"
    else [ESC] + "[G [" + Mark(chosen) + "]" + [ESC] + "[2D"
  }

  /** The marked value once a line has been written: the one set, or the
      line's own. */
  function ActiveAfter(st: SelectState, entry: Choice): string {
    if st.active.Some? then st.active.value else entry.value
  }

  /** `_write_option_line(index, entry, render_label)`: the first option
      becomes the marked value when none is; the first line showing the
      marked value becomes the highlighted and the marked line where those
      are unset. */
  function OptionLine(st: SelectState, index: int, entry: Choice, renderLabel: bool): (r: (SelectState, string))
    ensures r.0.options == st.options && r.0.rendered == st.rendered && r.0.question == st.question
    ensures r.0.active == Some(ActiveAfter(st, entry))
    ensures entry.value != ActiveAfter(st, entry) ==> r.0 == st.(active := r.0.active)
    ensures entry.value == ActiveAfter(st, entry) ==>
              r.0.activeLine == Some(if st.activeLine.Some? then st.activeLine.value else index)
              && r.0.activeIndex == Some(if st.activeIndex.Some? then st.activeIndex.value else index)
    ensures r.1 == OptionText(entry.value == ActiveAfter(st, entry), entry.title, renderLabel)
  {
    var active := ActiveAfter(st, entry);
    var chosen := entry.value == active;
    var line := if chosen && st.activeLine.None? then Some(index) else st.activeLine;
    var marked := if chosen && st.activeIndex.None? then Some(index) else st.activeIndex;
    (st.(active := Some(active), activeLine := line, activeIndex := marked), OptionText(chosen, entry.title, renderLabel))
  }

  /** The option lines from `index` on, in order. */
  function OptionLines(st: SelectState, index: nat): (r: (SelectState, seq<string>))
    requires index <= |st.options|
    ensures r.0.options == st.options && r.0.rendered == st.rendered && r.0.question == st.question
    ensures |r.1| == |st.options| - index
    decreases |st.options| - index
  {
    if index == |st.options| then (st, [])
    else
      var step := OptionLine(st, index, st.options[index], true);
      var rest := OptionLines(step.0, index + 1);
      (rest.0, [step.1] + rest.1)
  }

  /** The question line, when there is a non-empty question. */
  function QuestionLine(question: Option<string>): (out: seq<string>)
    ensures |out| <= 1
  {
    if question.Some? && question.value != "" then [question.value + "\r\n"] else []
  }

  /** Rendering succeeds when some line ends up highlighted; otherwise the
      source fails computing the cursor position. */
  predicate CanRender(st: SelectState) {
    OptionLines(st, 0).0.activeLine.Some?
  }

  /** `_render()`: the question, every option line, then the cursor goes
      back up to the highlighted line. */
  function Rendered(st: SelectState): (r: (SelectState, seq<string>))
    requires CanRender(st)
    ensures r.0.rendered && r.0.options == st.options
  {
    var lines := OptionLines(st, 0);
    (lines.0.(rendered := true),
     QuestionLine(st.question) + lines.1 + LineMove(lines.0.activeLine.value - |st.options|))
  }

  /** The first line showing `v`. */
  function FirstLineOf(options: seq<Choice>, v: string): (k: Option<int>)
    ensures k.Some? ==> 0 <= k.value < |options| && options[k.value].value == v
                        && forall j :: 0 <= j < k.value ==> options[j].value != v
    ensures k.None? ==> forall j :: 0 <= j < |options| ==> options[j].value != v
  {
    if options == [] then None
    else if options[0].value == v then Some(0)
    else
      var k := FirstLineOf(options[1..], v);
      if k.Some? then Some(k.value + 1) else None
  }

  /** The marked value rendering settles on: the one set, or the first
      option's. */
  function Settled(st: SelectState): Option<string> {
    if st.active.Some? then st.active
    else if st.options != [] then Some(st.options[0].value)
    else None
  }

  /** Rendering the lines from `index` on, with nothing highlighted yet,
      highlights and marks the first line from `index` showing the value. */
  lemma {:induction false} OptionLinesFindFirst(st: SelectState, index: nat, v: string)
    requires index <= |st.options| && st.active == Some(v)
    requires st.activeLine.None? && st.activeIndex.None?
    ensures var r := OptionLines(st, index).0;
            var k := FirstLineOf(st.options[index..], v);
            r.active == Some(v)
            && r.activeLine == r.activeIndex
            && r.activeLine == (if k.Some? then Some(k.value + index) else None)
    decreases |st.options| - index
  {
    if index < |st.options| {
      var step := OptionLine(st, index, st.options[index], true);
      assert st.options[index..][1..] == st.options[index + 1..];
      if st.options[index].value == v {
        OptionLinesKeepSet(step.0, index + 1);
      } else {
        assert step.0 == st;
        OptionLinesFindFirst(st, index + 1, v);
      }
    }
  }

  /** Once set, the highlighted and marked lines and the marked value stay. */
  lemma {:induction false} OptionLinesKeepSet(st: SelectState, index: nat)
    requires index <= |st.options|
    requires st.active.Some? && st.activeLine.Some? && st.activeIndex.Some?
    ensures var r := OptionLines(st, index).0;
            r.active == st.active && r.activeLine == st.activeLine && r.activeIndex == st.activeIndex
    decreases |st.options| - index
  {
    if index < |st.options| {
      OptionLinesKeepSet(OptionLine(st, index, st.options[index], true).0, index + 1);
    }
  }

  /** After `set_active_option` (nothing highlighted or marked), rendering
      marks and highlights the first line showing the chosen value (the
      first option's when none was chosen), and fails exactly when no line
      shows it. */
  lemma RenderFindsActive(st: SelectState)
    requires st.activeLine.None? && st.activeIndex.None?
    ensures CanRender(st) <==> Settled(st).Some? && FirstLineOf(st.options, Settled(st).value).Some?
    ensures CanRender(st) ==>
              var r := Rendered(st).0;
              r.active == Settled(st) && r.activeLine == r.activeIndex
              && r.activeLine == FirstLineOf(st.options, Settled(st).value)
  {
    assert st.options[0..] == st.options;
    if st.options == [] {
      assert OptionLines(st, 0).0 == st;
    } else {
      var v := Settled(st).value;
      var step := OptionLine(st, 0, st.options[0], true);
      assert step.0.active == Some(v);
      if st.options[0].value == v {
        OptionLinesKeepSet(step.0, 1);
      } else {
        OptionLinesFindFirst(step.0, 1, v);
        assert st.options[1..] == st.options[0..][1..];
      }
    }
  }

  /** Line `i` of the rendering shows "[x]" exactly for options whose value
      is the marked one. */
  lemma {:induction false} OptionLinesMarks(st: SelectState, index: nat, v: string, i: int)
    requires index <= i < |st.options| && st.active == Some(v)
    ensures OptionLines(st, index).1[i - index]
            == [ESC] + "[G [" + Mark(st.options[i].value == v) + "] " + st.options[i].title + "\r\n"
    decreases |st.options| - index
  {
    if i > index {
      OptionLinesMarks(OptionLine(st, index, st.options[index], true).0, index + 1, v, i);
    }
  }

  /** `_process_key` reacting to one key: the new state, the writes and the
      returned value (the marked value on Enter, None otherwise). */
  datatype Reaction = Reaction(st: SelectState, out: seq<string>, result: Option<string>)

  /** The key Space or "x" marks the highlighted option. */
  predicate IsToggle(name: string) {
    name == " " || name == "x"
  }

  /** What `_process_key` needs: a highlighted and a marked line (set by the
      first render), and for marking, a highlighted line that exists. */
  predicate CanProcess(st: SelectState, name: string) {
    st.activeLine.Some? && st.activeIndex.Some?
    && (IsToggle(name) && st.activeIndex.value != st.activeLine.value ==> 0 <= st.activeLine.value < |st.options|)
  }

  /** `_process_key(type, key)`. */
  function Reacted(st: SelectState, name: string): (r: Reaction)
    requires CanProcess(st, name)
    ensures r.st.options == st.options && r.st.rendered == st.rendered && r.st.question == st.question
    ensures r.result.Some? ==> name == "CTRL_M"
  {
    var n := |st.options|;
    var line := st.activeLine.value;
    var canUp := line > 0;
    var canDown := line < n - 1;
    if name == "HOME" && canUp then Reaction(st.(activeLine := Some(0)), LineMove(-line), None)
    else if name == "END" && canDown then Reaction(st.(activeLine := Some(n - 1)), LineMove(n - line - 1), None)
    else if name == "UP" && canUp then Reaction(st.(activeLine := Some(line - 1)), LineMove(-1), None)
    else if name == "DOWN" && canDown then Reaction(st.(activeLine := Some(line + 1)), LineMove(1), None)
    else if IsToggle(name) then
      var diff := st.activeIndex.value - line;
      if diff == 0 then Reaction(st, [], None)
      else
        Reaction(st.(active := Some(st.options[line].value), activeIndex := Some(line)),
                 [[ESC] + "[sx" + [ESC] + "[D"] + LineMove(diff) + [" " + [ESC] + "[D" + [ESC] + "[u"], None)
    else if name == "CTRL_M" then Reaction(st, LineMove(n - line - 1) + ["\r\n"], st.active)
    else Reaction(st, [], None)
  }

  /** A highlighted line within the list stays within it, whatever the key. */
  lemma HighlightStaysInRange(st: SelectState, name: string)
    requires CanProcess(st, name) && 0 <= st.activeLine.value < |st.options|
    ensures var r := Reacted(st, name).st;
            r.activeLine.Some? && 0 <= r.activeLine.value < |st.options|
  {
  }

  /** HOME goes to the first line and END to the last; UP and DOWN move by one
      line only where there is one. */
  lemma HighlightMoves(st: SelectState)
    requires CanProcess(st, "HOME") && 0 <= st.activeLine.value < |st.options|
    ensures Reacted(st, "HOME").st.activeLine == Some(0)
    ensures Reacted(st, "END").st.activeLine == Some(|st.options| - 1)
    ensures Reacted(st, "UP").st.activeLine == Some(if st.activeLine.value > 0 then st.activeLine.value - 1 else 0)
    ensures Reacted(st, "DOWN").st.activeLine
            == Some(if st.activeLine.value < |st.options| - 1 then st.activeLine.value + 1 else st.activeLine.value)
  {
  }

  /** Marking the line already marked changes and writes nothing; marking
      another line makes its option the marked one, and the writes put "x"
      on the highlighted line and blank the old mark, the cursor coming back
      to where it was. */
  lemma ToggleMarks(st: SelectState, name: string)
    requires IsToggle(name) && CanProcess(st, name)
    ensures var r := Reacted(st, name);
            var line := st.activeLine.value;
            r.result.None?
            && (st.activeIndex == st.activeLine ==> r.st == st && r.out == [])
            && (st.activeIndex != st.activeLine ==>
                  r.st.active == Some(st.options[line].value) && r.st.activeIndex == Some(line)
                  && r.st.activeLine == st.activeLine
                  && r.out == [[ESC] + "[sx" + [ESC] + "[D"] + LineMove(st.activeIndex.value - line)
                              + [" " + [ESC] + "[D" + [ESC] + "[u"])
  {
  }

  /** Enter returns the marked value, not the highlighted one, and moves the
      cursor below the list. */
  lemma EnterReturnsMarked(st: SelectState)
    requires CanProcess(st, "CTRL_M")
    ensures var r := Reacted(st, "CTRL_M");
            r.result == st.active && r.st == st
            && r.out == LineMove(|st.options| - st.activeLine.value - 1) + ["\r\n"]
  {
  }

  /** Moving the highlight up and pressing Enter without marking returns the
      option marked before, not the one now highlighted. */
  lemma UpThenEnterKeepsMarked(st: SelectState)
    requires CanProcess(st, "UP") && st.activeLine.value > 0
    ensures var up := Reacted(st, "UP").st;
            CanProcess(up, "CTRL_M") && Reacted(up, "CTRL_M").result == st.active
  {
  }

  /** Everything read or written by one call of `read_non_blocking`. */
  datatype Step = Step(st: SelectState, out: seq<string>, result: Option<string>, rest: seq<Byte>)

  /** What `read_non_blocking` needs: the list can be rendered when it is
      not, a key can be decoded, and the state then allows processing it. */
  predicate CanRead(st: SelectState, pending: seq<Byte>) {
    (!st.rendered ==> CanRender(st))
    && ReadKeySpec(pending) != Fault
    && var shown := if st.rendered then st else Rendered(st).0;
       var k := ReadKeySpec(pending).key;
       k.Some? ==> CanProcess(shown, k.value.name)
  }

  /** `read_non_blocking()`: render if needed, read one key, react to it. */
  function ReadStep(st: SelectState, pending: seq<Byte>): (r: Step)
    requires CanRead(st, pending)
    ensures r.rest == ReadKeySpec(pending).rest && r.st.rendered
  {
    var shown := if st.rendered then (st, []) else Rendered(st);
    var d := ReadKeySpec(pending);
    if d.key.None? then Step(shown.0, shown.1, None, d.rest)
    else
      var r := Reacted(shown.0, d.key.value.name);
      Step(r.st, shown.1 + r.out, r.result, d.rest)
  }

  /** The source class `Select` (select.py); named `SingleSelect` here so that
      it does not share its name with this module. */
  class SingleSelect {
    const io: Console
    var rendered: bool
    var options: seq<Choice>
    var active: Option<string>
    var activeIndex: Option<int>
    var activeLine: Option<int>
    var question: Option<string>

    function State(): SelectState
      reads this
    {
      SelectState(rendered, options, active, activeIndex, activeLine, question)
    }

    constructor (serial: Console)
      ensures io == serial && State() == Initial
    {
      io := serial;
      rendered := false;
      options := [];
      active := None;
      activeIndex := None;
      activeLine := None;
      question := None;
    }

    /** `set_question(question)`: shown on the next read. */
    method SetQuestion(text: Option<string>)
      modifies this
      ensures State() == old(State()).(question := text, rendered := false)
    {
      question := text;
      rendered := false;
    }

    /** `set_options(options)`: shown on the next read. */
    method SetOptions(choices: seq<Choice>)
      modifies this
      ensures State() == old(State()).(options := choices, rendered := false)
    {
      options := choices;
      rendered := false;
    }

    /** `set_active_option(option)`: the marked and highlighted lines are
        looked up again on the next read. */
    method SetActiveOption(option: Option<string>)
      modifies this
      ensures State() == old(State()).(active := option, activeIndex := None, activeLine := None, rendered := false)
    {
      active := option;
      activeIndex := None;
      activeLine := None;
      rendered := false;
    }

    /** `_write_option_line(index, entry, render_label)`. */
    method WriteOptionLine(index: int, entry: Choice, renderLabel: bool)
      modifies this, io
      ensures var r := OptionLine(old(State()), index, entry, renderLabel);
              State() == r.0 && io.written == old(io.written) + [r.1] && io.pending == old(io.pending)
    {
      if active.None? {
        active := Some(entry.value);
      }
      var chosen := entry.value == active.value;
      if chosen {
        if activeLine.None? {
          activeLine := Some(index);
        }
        if activeIndex.None? {
          activeIndex := Some(index);
        }
      }
      if renderLabel {
        io.Write([ESC] + "[G [" + Mark(chosen) + "] " + entry.title + "\r\n");
      } else {
        io.Write([ESC] + "[G [" + Mark(chosen) + "]" + [ESC] + "[2D");
      }
    }

    /** `_move_cursor(count)`. */
    method MoveCursor(count: int)
      modifies io
      ensures io.written == old(io.written) + LineMove(count) && io.pending == old(io.pending)
    {
      if count < 0 {
        io.Write(MoveEscape(-count, 'F'));
      } else if count > 0 {
        io.Write(MoveEscape(count, 'E'));
      }
    }

    /** The loop of `_render()` over the options. */
    method WriteOptionLines()
      modifies this, io
      ensures var r := OptionLines(old(State()), 0);
              State() == r.0 && io.written == old(io.written) + r.1 && io.pending == old(io.pending)
    {
      ghost var s0 := State();
      ghost var acc: seq<string> := [];
      var index := 0;
      while index < |options|
        invariant 0 <= index <= |options| && options == s0.options
        invariant io.written == old(io.written) + acc && io.pending == old(io.pending)
        invariant OptionLines(s0, 0).0 == OptionLines(State(), index).0
        invariant OptionLines(s0, 0).1 == acc + OptionLines(State(), index).1
      {
        ghost var before := State();
        ghost var step := OptionLine(before, index, options[index], true);
        WriteOptionLine(index, options[index], true);
        assert OptionLines(before, index).1 == [step.1] + OptionLines(State(), index + 1).1;
        AppendAssoc(acc, [step.1], OptionLines(State(), index + 1).1);
        acc := acc + [step.1];
        index := index + 1;
      }
    }

    /** The question line of `_render()`, when there is a question. */
    method WriteQuestion()
      modifies io
      ensures io.written == old(io.written) + QuestionLine(question) && io.pending == old(io.pending)
    {
      if question.Some? && question.value != "" {
        io.WriteLine(question.value);
      }
    }

    /** `_render()`. */
    method Render()
      requires CanRender(State())
      modifies this, io
      ensures State() == Rendered(old(State())).0
      ensures io.written == old(io.written) + Rendered(old(State())).1
      ensures io.pending == old(io.pending)
    {
      ghost var w := io.written;
      ghost var q := QuestionLine(question);
      ghost var lines := OptionLines(State(), 0);
      ghost var expected := Rendered(State());
      assert expected.1 == q + lines.1 + LineMove(lines.0.activeLine.value - |options|);
      WriteQuestion();
      WriteOptionLines();
      assert State() == lines.0;
      var count := activeLine.value - |options|;
      MoveCursor(count);
      rendered := true;
      assert io.written == w + q + lines.1 + LineMove(count);
      AppendAssoc3(w, q, lines.1, LineMove(count));
    }

    /** `_process_key(type, key)`. */
    method ProcessKey(name: string) returns (result: Option<string>)
      requires CanProcess(State(), name)
      modifies this, io
      ensures var r := Reacted(old(State()), name);
              State() == r.st && result == r.result
              && io.written == old(io.written) + r.out && io.pending == old(io.pending)
    {
      var n := |options|;
      var line := activeLine.value;
      var canUp := line > 0;
      var canDown := line < n - 1;
      result := None;
      if name == "HOME" && canUp {
        MoveCursor(-line);
        activeLine := Some(0);
      } else if name == "END" && canDown {
        MoveCursor(n - line - 1);
        activeLine := Some(n - 1);
      } else if name == "UP" && canUp {
        activeLine := Some(line - 1);
        MoveCursor(-1);
      } else if name == "DOWN" && canDown {
        activeLine := Some(line + 1);
        MoveCursor(1);
      } else if IsToggle(name) {
        var diff := activeIndex.value - line;
        if diff != 0 {
          io.Write([ESC] + "[sx" + [ESC] + "[D");
          MoveCursor(diff);
          io.Write(" " + [ESC] + "[D" + [ESC] + "[u");
          active := Some(options[line].value);
          activeIndex := Some(line);
          AppendAssoc(old(io.written), [[ESC] + "[sx" + [ESC] + "[D"], LineMove(diff));
        }
      } else if name == "CTRL_M" {
        MoveCursor(n - line - 1);
        io.Write("\r\n");
        result := active;
      }
    }

    /** `read_non_blocking()`. */
    method ReadNonBlocking() returns (result: Option<string>)
      requires CanRead(State(), io.pending)
      modifies this, io
      ensures var r := ReadStep(old(State()), old(io.pending));
              State() == r.st && result == r.result && io.written == old(io.written) + r.out
              && io.pending == r.rest
    {
      if !rendered {
        Render();
      }
      ghost var shown := State();
      ghost var w := io.written;
      var key := ReadKey(io);
      if key.None? {
        return None;
      }
      result := ProcessKey(key.value.name);
      AppendAssoc(old(io.written), w[|old(io.written)|..], Reacted(shown, key.value.name).out);
    }
  }
}
