/** `Prompt`: the line editor as an object. Its fields are updated in place and
    every write goes to the console; each method is specified by the function
    of the `Editor` module that describes the same step. */
module PromptLine {
  import opened Common
  import opened Serial
  import opened Input
  import opened Editor
  import History
  import Autocomplete

  class Prompt {
    const io: Console
    const history: History.HistoryLog
    const completer: Autocomplete.Completer
    var buffer: string
    var cursor: nat
    var maxLength: nat
    var copyText: string
    var lastKey: Option<string>
    var commandsEnabled: bool
    var clearScreenEnabled: bool
    var newPrompt: bool
    var promptString: string

    /** The fields, with the history's and the completer's. */
    function State(): LineState
      reads this, history, completer
    {
      LineState(buffer, cursor, maxLength, copyText, lastKey, commandsEnabled, clearScreenEnabled,
                newPrompt, promptString, history.State(), completer.State())
    }

    predicate Valid()
      reads this, history, completer
    {
      Editor.Valid(State())
    }

    /** `Prompt(serial)`: an empty buffer and a maximum length of 120. */
    constructor (serial: Console)
      ensures io == serial && State() == InitialLine() && Valid()
      ensures fresh(history) && fresh(completer)
    {
      io := serial;
      history := new History.HistoryLog();
      completer := new Autocomplete.Completer();
      buffer := "";
      cursor := 0;
      maxLength := 120;
      copyText := "";
      lastKey := None;
      commandsEnabled := true;
      clearScreenEnabled := true;
      newPrompt := true;
      promptString := "";
    }

    /** `_clear`. */
    method Clear()
      modifies this
      ensures State() == old(State()).(buffer := "", cursor := 0)
    {
      buffer := "";
      cursor := 0;
    }

    /** `set_max_length`; a negative length is ruled out by the type. */
    method SetMaxLength(length: nat)
      modifies this
      ensures State() == old(State()).(maxLength := length)
    {
      maxLength := length;
    }

    /** `enable_commands`. */
    method EnableCommands(value: bool)
      modifies this
      ensures State() == old(State()).(commandsEnabled := value)
    {
      commandsEnabled := value;
    }

    /** `enable_clear_screen`. */
    method EnableClearScreen(value: bool)
      modifies this
      ensures State() == old(State()).(clearScreenEnabled := value)
    {
      clearScreenEnabled := value;
    }

    /** `set_buffer`: the cursor goes to the end; the maximum length is not
        checked. */
    method SetBuffer(text: string)
      modifies this
      ensures State() == old(State()).(buffer := text, cursor := |text|)
      ensures old(Valid()) ==> Valid()
    {
      buffer := text;
      cursor := |text|;
    }

    /** `_move_cursor(count)`. */
    method MoveCursor(count: int) returns (moved: int)
      requires Valid()
      modifies this, io
      ensures var m := Moved(old(State()), count);
              State() == m.st && moved == m.moved && io.written == old(io.written) + m.out
      ensures io.pending == old(io.pending)
    {
      var c := count;
      if c < 0 {
        c := if c < -(cursor as int) then -(cursor as int) else c;
        if c != 0 {
          io.Write(Csi(-c, 'D'));
        }
      } else if c > 0 {
        c := Min(c, |buffer| - cursor);
        if c != 0 {
          io.Write(Csi(c, 'C'));
        }
      }
      cursor := cursor + c;
      moved := c;
    }

    /** `_set_copy_text(key, count, text)`. */
    method SetCopyText(key: string, count: int, text: string)
      modifies this
      ensures State() == old(State()).(copyText := CopyText(old(copyText), lastKey, key, count, text))
    {
      if lastKey == Some(key) || lastKey == None {
        if count < 0 {
          copyText := text + copyText;
        } else if count > 0 {
          copyText := copyText + text;
        }
      } else {
        copyText := text;
      }
    }

    /** The first half of `_remove_chars(count, …)`: the length of the span
        to delete, with the cursor moved to its start for a backward deletion,
        and the count with its sign. */
    method CutSpan(count: int) returns (n: nat, signed: int)
      requires Valid() && !(count < 0 && cursor == 0)
      modifies this, io
      ensures var c := CutRange(old(State()), count);
              State() == c.st && n == c.n && io.written == old(io.written) + c.out
      ensures signed == if count < 0 then -(n as int) else n
      ensures io.pending == old(io.pending)
    {
      if count < 0 {
        var m := MoveCursor(count);
        n := -m;
        signed := m;
      } else {
        n := if count > 0 then Min(count, |buffer| - cursor) else 0;
        signed := n;
      }
    }

    /** `_remove_chars(count, copy_on_key)`, with the direction of a backward
        cut handed on to the copy buffer. */
    method RemoveChars(count: int, copyOn: Option<string>)
      requires Valid()
      modifies this, io
      ensures var e := Removed(old(State()), count, copyOn);
              State() == e.st && io.written == old(io.written) + e.out
      ensures io.pending == old(io.pending)
    {
      if count < 0 && cursor == 0 {
        return;
      }
      ghost var c := CutRange(State(), count);
      var n, signed := CutSpan(count);
      var b := buffer;
      var text := b[cursor..cursor + n];
      if copyOn.Some? {
        SetCopyText(copyOn.value, signed, text);
      }
      buffer := b[..cursor] + b[cursor + n..];
      io.Write(Csi(n, 'P'));
      AppendAssoc(old(io.written), c.out, [Csi(c.n, 'P')]);
    }

    /** `_add_chars(chars)`. */
    method AddChars(chars: string)
      requires Valid()
      modifies this, io
      ensures var e := Added(old(State()), chars);
              State() == e.st && io.written == old(io.written) + e.out
      ensures io.pending == old(io.pending)
    {
      if |buffer| + |chars| > maxLength {
        return;
      }
      if cursor == |buffer| {
        buffer := buffer + chars;
        cursor := cursor + |chars|;
        io.Write(chars);
        return;
      }
      var rest := buffer[cursor..];
      buffer := buffer[..cursor] + chars + rest;
      cursor := cursor + |chars| + |rest|;
      io.Write(chars + rest);
      var _ := MoveCursor(-|rest|);
    }

    /** `_get_word_start()`: two loops leftwards from the cursor, over spaces
        and then over the word. */
    method GetWordStart() returns (r: int)
      requires cursor <= |buffer|
      ensures r == WordStart(buffer, cursor)
    {
      var b := buffer;
      var i := cursor - 1;
      while i >= 0 && b[i] == ' '
        invariant -1 <= i < |b|
        invariant SkipLeft(b, i, true) == SkipLeft(b, cursor - 1, true)
        decreases i + 1
      {
        i := i - 1;
      }
      while i >= 0 && b[i] != ' '
        invariant -1 <= i < |b|
        invariant SkipLeft(b, i, false) == SkipLeft(b, SkipLeft(b, cursor - 1, true), false)
        decreases i + 1
      {
        i := i - 1;
      }
      r := i - cursor + 1;
    }

    /** `_get_word_end()`: two loops rightwards from the cursor. */
    method GetWordEnd() returns (r: nat)
      requires cursor <= |buffer|
      ensures r == WordEnd(buffer, cursor)
    {
      var b := buffer;
      var i := cursor;
      while i < |b| && b[i] == ' '
        invariant cursor <= i <= |b|
        invariant SkipRight(b, i, true) == SkipRight(b, cursor, true)
      {
        i := i + 1;
      }
      while i < |b| && b[i] != ' '
        invariant cursor <= i <= |b|
        invariant SkipRight(b, i, false) == SkipRight(b, SkipRight(b, cursor, true), false)
      {
        i := i + 1;
      }
      r := i - cursor;
    }

    /** `_replace_buffer(text)`. */
    method ReplaceBuffer(text: string)
      requires Valid()
      modifies this, io
      ensures var e := Replaced(old(State()), text);
              State() == e.st && io.written == old(io.written) + e.out
      ensures io.pending == old(io.pending)
    {
      if text == buffer {
        return;
      }
      var _ := MoveCursor(-(cursor as int));
      Clear();
      io.Write(EraseToEnd());
      AddChars(text);
    }

    /** `_clear_screen(clear_buffer)`. */
    method ClearScreen(clearBuffer: bool)
      requires Valid()
      modifies this, io
      ensures var e := ClearedScreen(old(State()), clearBuffer);
              State() == e.st && io.written == old(io.written) + e.out
      ensures io.pending == old(io.pending)
    {
      io.Write(ClearAndHome());
      if clearBuffer {
        Clear();
        return;
      }
      io.Write(promptString + buffer);
      io.Write(Csi(|buffer| - cursor, 'D'));
    }

    /** The cursor-key branches of `_process_key`; false when `name` is not
        one of them. */
    method MotionKeys(name: string) returns (handled: bool)
      requires Valid()
      modifies this, io
      ensures var r := Editor.MotionKey(old(State()), name);
              handled == r.Some?
              && (r.Some? ==> State() == r.value.st && io.written == old(io.written) + r.value.out)
              && (r.None? ==> State() == old(State()) && io.written == old(io.written))
      ensures io.pending == old(io.pending)
    {
      handled := true;
      if name == "LEFT" || name == "CTRL_B" {
        var _ := MoveCursor(-1);
      } else if name == "RIGHT" || name == "CTRL_F" {
        var _ := MoveCursor(1);
      } else if name == "HOME" || name == "CTRL_A" {
        var _ := MoveCursor(-(cursor as int));
      } else if name == "END" || name == "CTRL_E" {
        var _ := MoveCursor(|buffer| - cursor);
      } else if name == "ALT_B" {
        var k := GetWordStart();
        var _ := MoveCursor(k);
      } else if name == "ALT_F" {
        var k := GetWordEnd();
        var _ := MoveCursor(k);
      } else {
        handled := false;
      }
    }

    /** The deleting and cutting branches of `_process_key`. */
    method DeletionKeys(name: string) returns (handled: bool)
      requires Valid()
      modifies this, io
      ensures var r := Editor.DeletionKey(old(State()), name);
              handled == r.Some?
              && (r.Some? ==> State() == r.value.st && io.written == old(io.written) + r.value.out)
              && (r.None? ==> State() == old(State()) && io.written == old(io.written))
      ensures io.pending == old(io.pending)
    {
      handled := true;
      if name == "BACKSPACE" || name == "CTRL_H" {
        RemoveChars(-1, None);
      } else if name == "DELETE" {
        RemoveChars(1, None);
      } else if name == "CTRL_K" {
        RemoveChars(|buffer| - cursor, Some(name));
      } else if name == "CTRL_U" {
        RemoveChars(-(cursor as int), Some(name));
      } else if name == "CTRL_W" {
        var k := GetWordStart();
        RemoveChars(k, Some(name));
      } else if name == "ALT_D" {
        var k := GetWordEnd();
        RemoveChars(k, Some(name));
      } else {
        handled := false;
      }
    }

    /** The completion, redraw, yank and history branches of `_process_key`. */
    method FeatureKeys(name: string) returns (handled: bool)
      requires Valid()
      modifies this, io, history, completer
      ensures var r := Editor.FeatureKey(old(State()), name);
              handled == r.Some?
              && (r.Some? ==> State() == r.value.st && io.written == old(io.written) + r.value.out)
              && (r.None? ==> State() == old(State()) && io.written == old(io.written))
      ensures io.pending == old(io.pending)
    {
      handled := true;
      if name == "CTRL_I" && completer.enabled && commandsEnabled {
        var text := completer.Process(buffer);
        ReplaceBuffer(text);
      } else if name == "CTRL_L" && clearScreenEnabled {
        ClearScreen(false);
      } else if name == "CTRL_Y" && copyText != "" {
        AddChars(copyText);
      } else if (name == "UP" || name == "CTRL_P") && history.enabled && commandsEnabled {
        var text := history.Action(History.Prev, buffer);
        ReplaceBuffer(text);
      } else if (name == "DOWN" || name == "CTRL_N") && history.enabled && commandsEnabled {
        var text := history.Action(History.Next, buffer);
        ReplaceBuffer(text);
      } else {
        handled := false;
      }
    }

    /** The key-name branches of `_process_key`, which the source tests in
        one `elif` chain; the three groups tried here name disjoint keys, so
        the branch taken is the same. */
    method EditKeys(name: string) returns (handled: bool)
      requires Valid()
      modifies this, io, history, completer
      ensures var r := EditKey(old(State()), name);
              handled == r.Some?
              && (r.Some? ==> State() == r.value.st && io.written == old(io.written) + r.value.out)
              && (r.None? ==> State() == old(State()) && io.written == old(io.written))
      ensures io.pending == old(io.pending)
    {
      handled := MotionKeys(name);
      if !handled {
        handled := DeletionKeys(name);
      }
      if !handled {
        handled := FeatureKeys(name);
      }
    }

    /** `_process_key(type, key)`. */
    method ProcessKey(key: Key) returns (done: bool)
      requires Valid()
      modifies this, io, history, completer
      ensures var r := Editor.ProcessKey(old(State()), key);
              State() == r.st && done == r.done && io.written == old(io.written) + r.out
      ensures io.pending == old(io.pending)
    {
      var name := key.name;
      if name != "CTRL_I" && completer.enabled {
        completer.Clean();
      }
      ghost var s1 := State();
      assert s1 == ResetCompletion(old(State()), name);
      if key.kind == CharKey {
        AddChars(name);
        return true;
      }
      done := EditKeys(name);
      if done {
        lastKey := Some(name);
      }
    }

    /** The `history` command: one line per entry, oldest first. */
    method ListHistory()
      modifies io
      ensures io.written == old(io.written) + HistoryListing(history.entries)
      ensures io.pending == old(io.pending)
    {
      var entries := history.entries;
      ghost var listing := HistoryListing(entries);
      for i := 0 to |entries|
        invariant io.written == old(io.written) + listing[..i]
        invariant io.pending == old(io.pending)
      {
        io.Write(HistoryLine(i, entries[i]));
        assert listing[..i + 1] == listing[..i] + [HistoryLine(i, entries[i])];
      }
      assert listing[..|entries|] == listing;
    }

    /** `_internal_commands()`: what Enter submits, after any local command
        has been carried out. */
    method InternalCommands() returns (command: Command)
      requires Valid()
      modifies this, io
      ensures var r := Editor.InternalCommands(old(State()));
              State() == r.st && command == r.command && io.written == old(io.written) + r.out
      ensures io.pending == old(io.pending)
    {
      var b := Strip(buffer);
      if history.enabled && |b| > 0 {
        if b == "clear" {
          ClearScreen(true);
          return Internal;
        }
        if b == "history" {
          ListHistory();
          return Internal;
        } else if b[0] == '!' {
          var entry := history.GetEntry(b);
          if entry.Some? && entry.value != "" {
            io.Write(entry.value + "\r\n");
            Clear();
            return Submit(entry.value);
          }
        }
      }
      return Submit(b);
    }

    /** `keyboard_interrupt()`. */
    method KeyboardInterrupt()
      modifies this, io
      ensures var e := Interrupted(old(State()));
              State() == e.st && io.written == old(io.written) + e.out
      ensures io.pending == old(io.pending)
    {
      io.Write("\r\n");
      Clear();
      newPrompt := true;
    }

    /** The start of `read_non_blocking`: a pending prompt is written, with
        the buffer when there is one. */
    method ShowPrompt(prompt: string)
      requires Valid()
      modifies this, io
      ensures var e := PromptShown(old(State()), prompt);
              State() == e.st && io.written == old(io.written) + e.out
      ensures io.pending == old(io.pending)
    {
      if newPrompt {
        newPrompt := false;
        promptString := prompt;
        io.Write(prompt);
        if buffer != "" {
          io.Write(buffer);
        } else {
          Clear();
        }
      }
    }

    /** The Enter branch of `read_non_blocking`, with commands enabled. */
    method Enter(prompt: string) returns (line: Option<string>)
      requires Valid() && commandsEnabled
      modifies this, io, history
      ensures var r := Entered(old(State()), prompt);
              State() == r.st && line == r.line && io.written == old(io.written) + r.out
      ensures io.pending == old(io.pending)
    {
      io.Write("\r\n");
      ghost var s := State();
      var command := InternalCommands();
      ghost var c := Editor.InternalCommands(s);
      line := Conclude(command, prompt);
      ghost var o := Concluded(c.st, c.command, prompt);
      AppendAssoc(old(io.written) + ["\r\n"], c.out, o.out);
      AppendAssoc(old(io.written), ["\r\n"], c.out + o.out);
    }

    /** The end of the Enter branch, once the command has been handled. */
    method Conclude(command: Command, prompt: string) returns (line: Option<string>)
      requires Valid()
      modifies this, io, history
      ensures var r := Concluded(old(State()), command, prompt);
              State() == r.st && line == r.line && io.written == old(io.written) + r.out
      ensures io.pending == old(io.pending)
    {
      if command.Internal? {
        io.Write(prompt);
        Clear();
        return None;
      }
      var text := command.line;
      if history.enabled {
        history.Append(text);
      }
      newPrompt := true;
      Clear();
      return Some(text);
    }

    /** The part of `read_non_blocking` after a key has been read. */
    method HandleKey(key: Key, prompt: string) returns (line: Option<string>)
      requires Valid()
      requires commandsEnabled || key.kind == CharKey || key.name != "CTRL_M"
      modifies this, io, history, completer
      ensures var r := KeyStep(old(State()), key, prompt);
              State() == r.st && line == r.line && io.written == old(io.written) + r.out
      ensures io.pending == old(io.pending)
    {
      var done := ProcessKey(key);
      if done || key.name != "CTRL_M" {
        return None;
      }
      ghost var r := Editor.ProcessKey(old(State()), key);
      ghost var s := State();
      // Commands are enabled here: the precondition excludes Enter otherwise.
      line := Enter(prompt);
      AppendAssoc(old(io.written), r.out, Entered(s, prompt).out);
    }

    /** `read_non_blocking(prompt_string)`: at most one key is read. With
        commands disabled the source fails on Enter, so that case is excluded. */
    method ReadNonBlocking(prompt: string) returns (line: Option<string>)
      requires Valid() && ReadKeySpec(io.pending) != Fault
      requires var k := ReadKeySpec(io.pending).key;
               commandsEnabled || k.None? || k.value.kind == CharKey || k.value.name != "CTRL_M"
      modifies this, io, history, completer
      ensures var d := ReadKeySpec(old(io.pending));
              var r := ReadStep(old(State()), d.key, prompt);
              io.pending == d.rest && State() == r.st && line == r.line && io.written == old(io.written) + r.out
    {
      ShowPrompt(prompt);
      ghost var p := PromptShown(old(State()), prompt);
      var key := ReadKey(io);
      if key.None? {
        return None;
      }
      line := HandleKey(key.value, prompt);
      AppendAssoc(old(io.written), p.out, KeyStep(p.st, key.value, prompt).out);
    }
  }
}
