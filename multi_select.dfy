/** `MultiSelect`: a checklist on the terminal. Every option whose value is in
    the active list shows "[x]"; the cursor highlights one line, Space or "x"
    adds or removes the highlighted value, and Enter returns the active list.
    The cursor escapes are those of the single-choice list. */
module MultiChoice {
  import opened Common
  import opened Serial
  import opened Input
  import Select

  /** `_active_options`, as `set_active_options` accepts it: a list, changed
      in place by Space; a string, searched with Python's substring `in`
      (also what an unset value becomes on the first option line); or None. */
  datatype Marks = Listed(values: seq<string>) | Word(text: string) | Unset

  /** Python's `needle in text` on two strings: `needle` occurs somewhere in
      `text`. */
  function Occurs(needle: string, text: string): (b: bool)
    ensures |needle| <= |text| && text[..|needle|] == needle ==> b
    ensures b ==> |needle| <= |text|
    decreases |text|
  {
    (|needle| <= |text| && text[..|needle|] == needle) || (text != [] && Occurs(needle, text[1..]))
  }

  /** `value in self._active_options` (None has no `in`: the first option
      line replaces it before any test). */
  function Contains(m: Marks, v: string): bool
    requires !m.Unset?
  {
    match m
    case Listed(values) => v in values
    case Word(text) => Occurs(v, text)
  }

  datatype MultiState = MultiState(
    rendered: bool,
    options: seq<Select.Choice>,
    marks: Marks,
    /** The highlighted line. */
    activeLine: Option<int>,
    /** The line shown above the options (`label`). */
    title: Option<string>)

  /** The state before any setter: an empty active list. */
  const Initial := MultiState(false, [], Listed([]), None, None)

  /** The active options once a line showing `entry` has been written. */
  function MarksAfter(m: Marks, entry: Select.Choice): (r: Marks)
    ensures !r.Unset?
    ensures m.Unset? ==> Contains(r, entry.value)
  {
    if m.Unset? then Word(entry.value) else m
  }

  /** The active options after rendering: unchanged, unless unset with some
      option to take the first value from. */
  function Settled(st: MultiState): (r: Marks)
    ensures st.options != [] ==> !r.Unset?
  {
    if st.marks.Unset? && st.options != [] then Word(st.options[0].value) else st.marks
  }

  /** `_write_option_line(index, entry, render_label)`: "[x]" exactly when
      the value is active. */
  function OptionLine(st: MultiState, index: int, entry: Select.Choice, renderLabel: bool): (r: (MultiState, string))
    ensures r.0 == st.(marks := r.0.marks) && !r.0.marks.Unset?
    ensures r.1 == Select.OptionText(Contains(r.0.marks, entry.value), entry.title, renderLabel)
  {
    var marks := MarksAfter(st.marks, entry);
    (st.(marks := marks), Select.OptionText(Contains(marks, entry.value), entry.title, renderLabel))
  }

  /** The option lines from `index` on, in order. */
  function OptionLines(st: MultiState, index: nat): (r: (MultiState, seq<string>))
    requires index <= |st.options|
    ensures r.0 == st.(marks := r.0.marks)
    ensures |r.1| == |st.options| - index
    decreases |st.options| - index
  {
    if index == |st.options| then (st, [])
    else
      var step := OptionLine(st, index, st.options[index], true);
      var rest := OptionLines(step.0, index + 1);
      (rest.0, [step.1] + rest.1)
  }

  /** `_render()`: the label, every option line, then the cursor goes back up
      to the first line, which is highlighted. */
  function Rendered(st: MultiState): (r: (MultiState, seq<string>))
    ensures r.0.rendered && r.0.activeLine == Some(0) && r.0.options == st.options
  {
    var lines := OptionLines(st, 0);
    (lines.0.(activeLine := Some(0), rendered := true),
     Select.QuestionLine(st.title) + lines.1 + Select.LineMove(0 - |st.options|))
  }

  /** The highlighted line plays no part in writing the option lines. */
  lemma {:induction false} OptionLinesIgnoreLine(st: MultiState, index: nat, line: Option<int>)
    requires index <= |st.options|
    ensures var r := OptionLines(st, index);
            OptionLines(st.(activeLine := line), index) == (r.0.(activeLine := line), r.1)
    decreases |st.options| - index
  {
    if index < |st.options| {
      var step := OptionLine(st, index, st.options[index], true);
      assert OptionLine(st.(activeLine := line), index, st.options[index], true)
             == (step.0.(activeLine := line), step.1);
      OptionLinesIgnoreLine(step.0, index + 1, line);
    }
  }

  /** Set active options are used as they are by every line. */
  lemma {:induction false} OptionLinesKeepSet(st: MultiState, index: nat, i: int)
    requires index <= |st.options| && !st.marks.Unset?
    ensures OptionLines(st, index).0 == st
    ensures index <= i < |st.options| ==>
              OptionLines(st, index).1[i - index]
              == Select.OptionText(Contains(st.marks, st.options[i].value), st.options[i].title, true)
    decreases |st.options| - index
  {
    if index < |st.options| {
      var step := OptionLine(st, index, st.options[index], true);
      assert step.0 == st;
      OptionLinesKeepSet(st, index + 1, i);
    }
  }

  /** Rendering highlights the first line whatever is active, leaves the
      active options as `Settled` says, writes the label, one line per option
      marked "[x]" exactly when its value is active, and moves back up over
      all of them. */
  lemma RenderShowsMarks(st: MultiState)
    ensures var r := Rendered(st);
            r.0 == st.(marks := Settled(st), activeLine := Some(0), rendered := true)
            && |r.1| == |Select.QuestionLine(st.title)| + |st.options| + (if st.options == [] then 0 else 1)
            && r.1[..|Select.QuestionLine(st.title)|] == Select.QuestionLine(st.title)
            && r.1[|r.1| - |Select.LineMove(0 - |st.options|)|..] == Select.LineMove(0 - |st.options|)
            && forall i :: 0 <= i < |st.options| ==>
                 r.1[|Select.QuestionLine(st.title)| + i]
                 == Select.OptionText(Contains(Settled(st), st.options[i].value), st.options[i].title, true)
  {
    var q := Select.QuestionLine(st.title);
    var lines := OptionLines(st, 0);
    var r := Rendered(st);
    assert r.1 == q + lines.1 + Select.LineMove(0 - |st.options|);
    if st.options == [] {
      assert lines.0 == st;
    } else {
      var step := OptionLine(st, 0, st.options[0], true);
      assert step.0 == st.(marks := Settled(st));
      forall i | 0 <= i < |st.options|
        ensures lines.1[i] == Select.OptionText(Contains(Settled(st), st.options[i].value), st.options[i].title, true)
      {
        OptionLinesKeepSet(step.0, 1, i);
      }
      OptionLinesKeepSet(step.0, 1, 0);
    }
  }

  /** `list.remove(v)`: the first occurrence of `v` goes. */
  function RemoveFirst(s: seq<string>, v: string): (r: seq<string>)
    requires v in s
    ensures multiset(r) == multiset(s) - multiset{v}
  {
    assert s == [s[0]] + s[1..];
    if s[0] == v then s[1..]
    else [s[0]] + RemoveFirst(s[1..], v)
  }

  /** `_process_key` reacting to one key: the new state, the writes and the
      returned value (the active options on Enter, None otherwise). */
  datatype Reaction = Reaction(st: MultiState, out: seq<string>, result: Option<Marks>)

  /** What `_process_key` needs: a highlighted line (set by the first render),
      and for Space or "x", a highlighted option and an active list (a string
      has no `remove` or `append`). */
  predicate CanProcess(st: MultiState, name: string) {
    st.activeLine.Some?
    && (Select.IsToggle(name) ==> 0 <= st.activeLine.value < |st.options| && st.marks.Listed?)
  }

  /** The active options after Space or "x" on the value `v`, and what is
      written over the mark. */
  function Toggled(values: seq<string>, v: string): (r: (seq<string>, string))
  {
    if v in values then (RemoveFirst(values, v), " " + [ESC] + "[D")
    else (values + [v], "x" + [ESC] + "[D")
  }

  /** `_process_key(type, key)`. */
  function Reacted(st: MultiState, name: string): (r: Reaction)
    requires CanProcess(st, name)
    ensures r.st.options == st.options && r.st.rendered == st.rendered && r.st.title == st.title
    ensures r.result.Some? <==> name == "CTRL_M"
    ensures !Select.IsToggle(name) ==> r.st.marks == st.marks
  {
    var n := |st.options|;
    var line := st.activeLine.value;
    var canUp := line > 0;
    var canDown := line < n - 1;
    if name == "HOME" && canUp then Reaction(st.(activeLine := Some(0)), Select.LineMove(-line), None)
    else if name == "END" && canDown then Reaction(st.(activeLine := Some(n - 1)), Select.LineMove(n - line - 1), None)
    else if name == "UP" && canUp then Reaction(st.(activeLine := Some(line - 1)), Select.LineMove(-1), None)
    else if name == "DOWN" && canDown then Reaction(st.(activeLine := Some(line + 1)), Select.LineMove(1), None)
    else if Select.IsToggle(name) then
      var t := Toggled(st.marks.values, st.options[line].value);
      Reaction(st.(marks := Listed(t.0)), [t.1], None)
    else if name == "CTRL_M" then Reaction(st, Select.LineMove(n - line - 1) + ["\r\n"], Some(st.marks))
    else Reaction(st, [], None)
  }

  /** A highlighted line within the list stays within it, whatever the key. */
  lemma HighlightStaysInRange(st: MultiState, name: string)
    requires CanProcess(st, name) && 0 <= st.activeLine.value < |st.options|
    ensures var r := Reacted(st, name).st;
            r.activeLine.Some? && 0 <= r.activeLine.value < |st.options|
  {
  }

  /** HOME goes to the first line and END to the last; UP and DOWN move by one
      line only where there is one; the cursor moves by as many lines. */
  lemma HighlightMoves(st: MultiState)
    requires CanProcess(st, "HOME") && 0 <= st.activeLine.value < |st.options|
    ensures var line := st.activeLine.value;
            Reacted(st, "HOME").st.activeLine == Some(0)
            && Reacted(st, "HOME").out == Select.LineMove(-line)
            && Reacted(st, "END").st.activeLine == Some(|st.options| - 1)
            && Reacted(st, "END").out == Select.LineMove(|st.options| - 1 - line)
            && Reacted(st, "UP").st.activeLine == Some(if line > 0 then line - 1 else 0)
            && Reacted(st, "UP").out == Select.LineMove(if line > 0 then -1 else 0)
            && Reacted(st, "DOWN").st.activeLine == Some(if line < |st.options| - 1 then line + 1 else line)
            && Reacted(st, "DOWN").out == Select.LineMove(if line < |st.options| - 1 then 1 else 0)
  {
  }

  /** Space or "x" adds the highlighted option's value when it is not active
      and otherwise removes one occurrence of it, leaving every other value as
      it was: whether the value is active flips when it was listed at most
      once. The mark is rewritten as " " on removal and "x" on addition, and
      the cursor stays. */
  lemma ToggleFlips(st: MultiState, name: string, w: string)
    requires Select.IsToggle(name) && CanProcess(st, name)
    ensures var r := Reacted(st, name);
            var v := st.options[st.activeLine.value].value;
            r.st == st.(marks := r.st.marks) && r.st.marks.Listed? && r.result.None?
            && multiset(r.st.marks.values)[v]
               == (if v in st.marks.values then multiset(st.marks.values)[v] - 1 else 1)
            && (w != v ==> multiset(r.st.marks.values)[w] == multiset(st.marks.values)[w])
            && (multiset(st.marks.values)[v] <= 1 ==> (Contains(r.st.marks, v) <==> !Contains(st.marks, v)))
            && (w != v ==> (Contains(r.st.marks, w) <==> Contains(st.marks, w)))
            && r.out == [(if Contains(st.marks, v) then " " else "x") + [ESC] + "[D"]
  {
    var v := st.options[st.activeLine.value].value;
    var t := Toggled(st.marks.values, v);
    assert Reacted(st, name) == Reaction(st.(marks := Listed(t.0)), [t.1], None);
    ToggledCounts(st.marks.values, v, w);
  }

  /** Toggling `v` in a list of values: one `v` fewer when it is there, one
      `v` more when it is not; other values keep their counts. */
  lemma ToggledCounts(values: seq<string>, v: string, w: string)
    ensures var next := Toggled(values, v).0;
            multiset(next)[v] == (if v in values then multiset(values)[v] - 1 else 1)
            && (w != v ==> multiset(next)[w] == multiset(values)[w])
            && (multiset(values)[v] <= 1 ==> (v in next <==> v !in values))
            && (w != v ==> (w in next <==> w in values))
  {
    var next := Toggled(values, v).0;
    assert v in values <==> multiset(values)[v] > 0;
    assert w in values <==> multiset(values)[w] > 0;
    assert v in next <==> multiset(next)[v] > 0;
    assert w in next <==> multiset(next)[w] > 0;
  }

  /** Removing the first `v` from a list holding it once leaves none. */
  lemma OnceRemovedAbsent(values: seq<string>, v: string)
    requires v in values
    ensures multiset(values)[v] == 1 ==> v !in RemoveFirst(values, v)
  {
    var rest := RemoveFirst(values, v);
    assert v in rest <==> multiset(rest)[v] > 0;
  }

  /** Pressing Space twice on one line: a value that was not active is added
      and removed again, restoring the list exactly; a value active once is
      removed and added back at the end of the list, so the same values are
      active though their order may change. */
  lemma ToggleTwice(st: MultiState)
    requires CanProcess(st, " ")
    ensures var once := Reacted(st, " ").st;
            var twice := Reacted(once, " ").st;
            var v := st.options[st.activeLine.value].value;
            CanProcess(once, " ")
            && (v !in st.marks.values ==> twice == st)
            && (multiset(st.marks.values)[v] == 1 ==>
                  twice == st.(marks := twice.marks)
                  && twice.marks.values == RemoveFirst(st.marks.values, v) + [v]
                  && multiset(twice.marks.values) == multiset(st.marks.values))
  {
    var v := st.options[st.activeLine.value].value;
    var values := st.marks.values;
    if v !in values {
      assert (values + [v])[|values|] == v;
      RemoveAppended(values, v);
    } else if multiset(values)[v] == 1 {
      OnceRemovedAbsent(values, v);
      var rest := RemoveFirst(values, v);
      assert multiset(rest + [v]) == multiset(rest) + multiset{v};
    }
  }

  /** Removing the first `v` from a list ending with its only `v` undoes the
      append. */
  lemma {:induction false} RemoveAppended(values: seq<string>, v: string)
    requires v !in values
    ensures v in values + [v] && RemoveFirst(values + [v], v) == values
  {
    assert (values + [v])[|values|] == v;
    if values == [] {
      assert values + [v] == [v];
    } else {
      var tail := values[1..];
      assert values + [v] == [values[0]] + (tail + [v]);
      assert v !in tail;
      RemoveAppended(tail, v);
      RemoveFirstPast(values[0], tail + [v], v);
      assert values == [values[0]] + tail;
    }
  }

  /** `remove` passes over a first element that is not the value. */
  lemma RemoveFirstPast(x: string, t: seq<string>, v: string)
    requires x != v && v in t
    ensures RemoveFirst([x] + t, v) == [x] + RemoveFirst(t, v)
  {
    assert ([x] + t)[1..] == t;
  }

  /** Enter returns the active options, changing nothing, and moves the
      cursor below the list. */
  lemma EnterReturnsMarks(st: MultiState)
    requires CanProcess(st, "CTRL_M")
    ensures var r := Reacted(st, "CTRL_M");
            r.result == Some(st.marks) && r.st == st
            && r.out == Select.LineMove(|st.options| - st.activeLine.value - 1) + ["\r\n"]
  {
  }

  /** With "option3" active, marking the first line and pressing Enter
      returns "option3" then "option1". */
  lemma ToggleThenEnterExample()
    ensures var options := [Select.Choice("option1", "Option 1"), Select.Choice("option2", "Option 2"), Select.Choice("option3", "Option 3")];
            var st := MultiState(true, options, Listed(["option3"]), Some(0), None);
            var toggled := Reacted(st, " ").st;
            CanProcess(toggled, "CTRL_M")
            && Reacted(toggled, "CTRL_M").result == Some(Listed(["option3", "option1"]))
  {
    assert "option1" != "option3";
    assert ["option3"] + ["option1"] == ["option3", "option1"];
  }

  /** Everything read or written by one call of `read_non_blocking`. */
  datatype Step = Step(st: MultiState, out: seq<string>, result: Option<Marks>, rest: seq<Byte>)

  /** What `read_non_blocking` needs: a key can be decoded, and the state
      (rendered first when it is not) allows processing it. */
  predicate CanRead(st: MultiState, pending: seq<Byte>) {
    ReadKeySpec(pending) != Fault
    && var shown := if st.rendered then st else Rendered(st).0;
       var k := ReadKeySpec(pending).key;
       k.Some? ==> CanProcess(shown, k.value.name)
  }

  /** `read_non_blocking()`: render if needed, read one key, react to it. */
  function ReadStep(st: MultiState, pending: seq<Byte>): (r: Step)
    requires CanRead(st, pending)
    ensures r.rest == ReadKeySpec(pending).rest && r.st.rendered
    ensures ReadKeySpec(pending).key.None? ==> r.result.None?
  {
    var shown := if st.rendered then (st, []) else Rendered(st);
    var d := ReadKeySpec(pending);
    if d.key.None? then Step(shown.0, shown.1, None, d.rest)
    else
      var r := Reacted(shown.0, d.key.value.name);
      Step(r.st, shown.1 + r.out, r.result, d.rest)
  }

  class MultiSelect {
    const io: Console
    var rendered: bool
    var options: seq<Select.Choice>
    var marks: Marks
    var activeLine: Option<int>
    var title: Option<string>

    function State(): MultiState
      reads this
    {
      MultiState(rendered, options, marks, activeLine, title)
    }

    constructor (serial: Console)
      ensures io == serial && State() == Initial
    {
      io := serial;
      rendered := false;
      options := [];
      marks := Listed([]);
      activeLine := None;
      title := None;
    }

    /** `set_label(label)`: shown on the next read. */
    method SetLabel(text: Option<string>)
      modifies this
      ensures State() == old(State()).(title := text, rendered := false)
    {
      title := text;
      rendered := false;
    }

    /** `set_options(options)`: shown on the next read. */
    method SetOptions(choices: seq<Select.Choice>)
      modifies this
      ensures State() == old(State()).(options := choices, rendered := false)
    {
      options := choices;
      rendered := false;
    }

    /** `set_active_options(option)`. */
    method SetActiveOptions(option: Marks)
      modifies this
      ensures State() == old(State()).(marks := option, activeLine := None, rendered := false)
    {
      marks := option;
      activeLine := None;
      rendered := false;
    }

    /** `_write_option_line(index, entry, render_label)`. */
    method WriteOptionLine(index: int, entry: Select.Choice, renderLabel: bool)
      modifies this, io
      ensures var r := OptionLine(old(State()), index, entry, renderLabel);
              State() == r.0 && io.written == old(io.written) + [r.1] && io.pending == old(io.pending)
    {
      if marks.Unset? {
        marks := Word(entry.value);
      }
      var chosen := Contains(marks, entry.value);
      if renderLabel {
        io.Write([ESC] + "[G [" + Select.Mark(chosen) + "] " + entry.title + "\r\n");
      } else {
        io.Write([ESC] + "[G [" + Select.Mark(chosen) + "]" + [ESC] + "[2D");
      }
    }

    /** `_move_cursor(count)`. */
    method MoveCursor(count: int)
      modifies io
      ensures io.written == old(io.written) + Select.LineMove(count) && io.pending == old(io.pending)
    {
      if count < 0 {
        io.Write(Select.MoveEscape(-count, 'F'));
      } else if count > 0 {
        io.Write(Select.MoveEscape(count, 'E'));
      }
    }

    /** The loop of `_render()` over the options. */
    method WriteOptionLines()
      modifies this, io
      ensures var r := OptionLines(old(State()), 0);
              State() == r.0 && io.written == old(io.written) + r.1 && io.pending == old(io.pending)
    {
      ghost var s0 := State();
      ghost var acc: seq<string> := [];
      var index := 0;
      while index < |options|
        invariant 0 <= index <= |options| && options == s0.options
        invariant io.written == old(io.written) + acc && io.pending == old(io.pending)
        invariant OptionLines(s0, 0).0 == OptionLines(State(), index).0
        invariant OptionLines(s0, 0).1 == acc + OptionLines(State(), index).1
      {
        ghost var before := State();
        ghost var step := OptionLine(before, index, options[index], true);
        WriteOptionLine(index, options[index], true);
        assert OptionLines(before, index).1 == [step.1] + OptionLines(State(), index + 1).1;
        AppendAssoc(acc, [step.1], OptionLines(State(), index + 1).1);
        acc := acc + [step.1];
        index := index + 1;
      }
    }

    /** The label line of `_render()`, when the label is a non-empty string. */
    method WriteLabel()
      modifies io
      ensures io.written == old(io.written) + Select.QuestionLine(title) && io.pending == old(io.pending)
    {
      if title.Some? && title.value != "" {
        io.WriteLine(title.value);
      }
    }

    /** `_render()`. */
    method Render()
      modifies this, io
      ensures State() == Rendered(old(State())).0
      ensures io.written == old(io.written) + Rendered(old(State())).1
      ensures io.pending == old(io.pending)
    {
      ghost var w := io.written;
      ghost var q := Select.QuestionLine(title);
      ghost var lines := OptionLines(State(), 0);
      ghost var expected := Rendered(State());
      assert expected.1 == q + lines.1 + Select.LineMove(0 - |options|);
      OptionLinesIgnoreLine(State(), 0, Some(0));
      WriteLabel();
      activeLine := Some(0);
      WriteOptionLines();
      assert State() == lines.0.(activeLine := Some(0));
      var count := activeLine.value - |options|;
      MoveCursor(count);
      rendered := true;
      assert io.written == w + q + lines.1 + Select.LineMove(count);
      AppendAssoc3(w, q, lines.1, Select.LineMove(count));
    }

    /** `_process_key(type, key)`. */
    method ProcessKey(name: string) returns (result: Option<Marks>)
      requires CanProcess(State(), name)
      modifies this, io
      ensures var r := Reacted(old(State()), name);
              State() == r.st && result == r.result
              && io.written == old(io.written) + r.out && io.pending == old(io.pending)
    {
      var n := |options|;
      var line := activeLine.value;
      var canUp := line > 0;
      var canDown := line < n - 1;
      result := None;
      if name == "HOME" && canUp {
        MoveCursor(-line);
        activeLine := Some(0);
      } else if name == "END" && canDown {
        MoveCursor(n - line - 1);
        activeLine := Some(n - 1);
      } else if name == "UP" && canUp {
        activeLine := Some(line - 1);
        MoveCursor(-1);
      } else if name == "DOWN" && canDown {
        activeLine := Some(line + 1);
        MoveCursor(1);
      } else if Select.IsToggle(name) {
        var v := options[line].value;
        if v in marks.values {
          marks := Listed(RemoveFirst(marks.values, v));
          io.Write(" " + [ESC] + "[D");
        } else {
          marks := Listed(marks.values + [v]);
          io.Write("x" + [ESC] + "[D");
        }
      } else if name == "CTRL_M" {
        MoveCursor(n - line - 1);
        io.Write("\r\n");
        result := Some(marks);
      }
    }

    /** `read_non_blocking()`. */
    method ReadNonBlocking() returns (result: Option<Marks>)
      requires CanRead(State(), io.pending)
      modifies this, io
      ensures var r := ReadStep(old(State()), old(io.pending));
              State() == r.st && result == r.result && io.written == old(io.written) + r.out
              && io.pending == r.rest
    {
      if !rendered {
        Render();
      }
      ghost var shown := State();
      ghost var w := io.written;
      var key := ReadKey(io);
      if key.None? {
        return None;
      }
      result := ProcessKey(key.value.name);
      AppendAssoc(old(io.written), w[|old(io.written)|..], Reacted(shown, key.value.name).out);
    }
  }
}
