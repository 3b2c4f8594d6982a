# PeterBay CircuitPython Prompt — a Dafny model

The toolkit builds interactive prompts for a serial console on a microcontroller. This project models its core:

- the key decoder, which turns raw bytes into characters, control codes and escape sequences;
- the line editor: cursor motion, word jumps, kill and yank, history browsing with `!` recall, and tab completion;
- the two input checkers, `Validator` and `Value`;
- the single- and multi-choice lists;
- the command-line tokenizer, with its `to_string` and `to_dict`;
- the alias table and the `Terminal` shell with its internal commands;
- the hotkey `Menu` tree and the `Wizard`;
- the colour and cursor-shape escape sequences.

The serial port is a `Console` object. It holds the bytes waiting to be read and every string written so far. Each widget that the source updates in place is a Dafny class whose methods change its fields and the console. Every such method is specified by a pure function on a state datatype, and the properties are proved about those functions as lemmas. `Prompt` and `Terminal` are examples. The `Editor` module states the line editor's steps. `Select`, `MultiChoice`, `Menus`, `Wizards` and `Shell` state the widgets' steps.

Python's `float()` and `re.match` are parameters of the model: an oracle from text to an optional real, and a predicate on a pattern and a text. Integers are unbounded. Bytes are decoded as ASCII; `str.strip` removes Python's full set of whitespace characters, while `str.lower` and the letter tests cover ASCII letters only.

## Model

| member | source | states |
|---|---|---|
| Common.TrimLeft | peterbay_prompt/terminal.py:84 | `str.lstrip()`: the result starts with no whitespace, and only whitespace was dropped from the front |
| Common.TrimLeftSuffix | peterbay_prompt/terminal.py:84 | what `lstrip` keeps is a suffix of the text |
| Common.TrimRight | peterbay_prompt/prompt.py:151 | `str.rstrip()`: the result ends with no whitespace, and only whitespace was dropped from the end |
| Common.TrimRightPrefix | peterbay_prompt/prompt.py:151 | what `rstrip` keeps is a prefix of the text |
| Common.Strip | peterbay_prompt/prompt.py:151 | `str.strip()`: neither end of the result is whitespace |
| Common.StripNoSpaceEnds | peterbay_prompt/value.py:62 | stripping a text whose ends are not whitespace gives the text itself |
| Common.StripAllSpace | peterbay_prompt/history.py:65 | an all-whitespace text strips to "" |
| Common.Lower | peterbay_prompt/validator.py:11 | `str.lower()`: same length, each letter lowered |
| Common.DigitValue | peterbay_prompt/validator.py:28 | the value of a digit character is below 10 and prints back as that digit |
| Common.NatToString | peterbay_prompt/menu.py:144 | `str(n)`: a non-empty run of digits with no leading zero |
| Common.DigitsValueOfNat | peterbay_prompt/menu.py:144 | the digits of `str(n)` denote n |
| Common.NatToStringInjective | peterbay_prompt/menu.py:144 | distinct numbers print differently |
| Common.DigitsPrefixUnique | peterbay_prompt/input.py:115-133 | a run of digits ended by a non-digit is read back unambiguously |
| Common.ParseInt | peterbay_prompt/history.py:93 | `int(s)` succeeds only on text that is not blank once stripped |
| Common.ParseIntOfNat | peterbay_prompt/history.py:93 | `int(str(n)) == n` |
| Common.ParseIntOfNegated | peterbay_prompt/history.py:93 | `int("-" + str(n)) == -n` |
| Common.StripDigits | peterbay_prompt/history.py:93 | digits have no whitespace to strip |
| Common.StripSigned | peterbay_prompt/history.py:93 | a minus sign before digits has no whitespace to strip |
| Common.PadLeft | peterbay_prompt/menu.py:152 | `f"{s: >w}"`: at least w characters (exactly w when s is shorter), ending with s, and every character before s a space |
| Common.PadRight | peterbay_prompt/menu.py:70 | `f"{s: <w}"`: at least w characters (exactly w when s is shorter), starting with s, and every character after s a space |
| Common.IndexOf | peterbay_prompt/input.py:94 | the first position holding the character |
| Common.Split | peterbay_prompt/menu.py:32 | `s.split(sep)`: at least one part, no part holds the separator, and joining the parts back with it gives s |
| Aliases.AliasTable.constructor | peterbay_prompt/alias.py:6-7 | a new table is empty |
| Aliases.AliasTable.Add | peterbay_prompt/alias.py:9-10 | afterwards the alias names the command; every other alias keeps its command; an existing alias keeps its place and a new one comes last; keys stay distinct |
| Aliases.AliasTable.Remove | peterbay_prompt/alias.py:12-13 | afterwards the alias is unknown, every other alias keeps its command, and removing an unknown alias leaves the table as it was |
| Aliases.AliasTable.List | peterbay_prompt/alias.py:15-16 | gives the table itself, in insertion order |
| Aliases.AliasTable.Get | peterbay_prompt/alias.py:18-19 | None exactly when the alias is not in the table; otherwise the command stored under it |
| Autocomplete.Matches | peterbay_prompt/autocomplete.py:29-33 | only candidates that start with the prefix, and every such candidate |
| Autocomplete.MatchesConcat | peterbay_prompt/autocomplete.py:29-33 | matching keeps list order: the matches of `a + b` are those of `a` followed by those of `b` |
| Autocomplete.WithCandidates | peterbay_prompt/autocomplete.py:12-16 | an enabled completer takes the new list; a disabled one is unchanged; prefix and index are kept |
| Autocomplete.Cleaned | peterbay_prompt/autocomplete.py:18-20 | the index is 0 and nothing is captured; the list and the enabled flag are kept |
| Autocomplete.Completed | peterbay_prompt/autocomplete.py:22-40 | the text given back is the entry itself or a candidate that starts with the captured prefix |
| Autocomplete.CompletionInert | peterbay_prompt/autocomplete.py:23-24 | disabled, or with no candidates, the entry comes back and the state does not change |
| Autocomplete.PrefixCaptured | peterbay_prompt/autocomplete.py:26-27 | the first call after a clean captures the entry; later calls keep the captured prefix whatever the entry |
| Autocomplete.CompletionCycles | peterbay_prompt/autocomplete.py:29-40 | a hit gives `matches[index mod |matches|]` and advances the index; a miss gives the entry and keeps the index |
| Autocomplete.Completer.constructor | peterbay_prompt/autocomplete.py:6-10 | a new completer is enabled, with no candidates, no prefix and index 0 |
| Autocomplete.Completer.Set | peterbay_prompt/autocomplete.py:12-16 | the fields change as `WithCandidates` says |
| Autocomplete.Completer.Clean | peterbay_prompt/autocomplete.py:18-20 | the fields change as `Cleaned` says |
| Autocomplete.Completer.Process | peterbay_prompt/autocomplete.py:22-40 | the new fields and the text returned are those of `Completed` |
| Colors.Decorator | peterbay_prompt/colors.py:45-49 | no colour gives no escape, a colour gives one |
| Colors.Colorize | peterbay_prompt/colors.py:31-56 | with neither colour the text comes back unchanged; the colours must lie in 0..15 |
| Colors.Escapes | peterbay_prompt/colors.py:45-49 | one escape per colour given |
| Colors.ColorizeUnfolds | peterbay_prompt/colors.py:40-54 | with a colour the result is a reset, the escapes, the text and a closing reset, joined |
| Colors.ColorizeLayout | peterbay_prompt/colors.py:40-54 | with a colour the result is reset + background escape + foreground escape + text + reset |
| Colors.ColorizeKeepsText | peterbay_prompt/colors.py:51-54 | the text can be cut back out of the result, between the escapes and the 4-character closing reset |
| Colors.BackgroundFirst | peterbay_prompt/colors.py:45-49 | with both colours the background escape comes before the foreground one |
| Colors.ColorizeLevel | peterbay_prompt/colors.py:58-66 | no level gives the text unchanged; a level colours the foreground only |
| Colors.JoinFront | peterbay_prompt/colors.py:54 | joining with no separator puts the first part in front of the rest |
| Cursor.CursorType | peterbay_prompt/cursor.py:15-18 | a 5-character DECSCUSR string `ESC [ n SP q` whose digit is the shape; the shape must be 0..6 |
| Cursor.ShapeOf | peterbay_prompt/cursor.py:15-18 | reading a shape back gives one in 0..6 |
| Cursor.ShapeRoundTrip | peterbay_prompt/cursor.py:15-18 | reading back the string for a shape gives that shape |
| Cursor.CursorTypeInjective | peterbay_prompt/cursor.py:15-18 | distinct shapes give distinct strings |
| Dict.Keys | peterbay_prompt/alias.py:15-16 | the keys in insertion order |
| Dict.Find | peterbay_prompt/alias.py:18-19 | `get(k, None)`: None exactly when k is not a key; otherwise a value stored under k |
| Dict.Remove | peterbay_prompt/alias.py:12-13 | `pop(k, None)` never lengthens the table |
| Dict.FindPut | peterbay_prompt/alias.py:9-10 | after `d[k] = v`, k finds v and every other key finds what it found before |
| Dict.PutKeys | peterbay_prompt/alias.py:9-10 | assigning keeps insertion order: a present key keeps its place, a new key comes last |
| Dict.PutDistinct | peterbay_prompt/alias.py:9-10 | assigning keeps the keys distinct |
| Dict.FindRemove | peterbay_prompt/alias.py:12-13 | after `pop(k)`, k is gone and every other key finds what it found before |
| Dict.RemoveAbsent | peterbay_prompt/alias.py:12-13 | popping an absent key changes nothing |
| Dict.RemoveDistinct | peterbay_prompt/alias.py:12-13 | popping keeps the remaining entries, in order, with distinct keys, and drops only k |
| Serial.Console.constructor | peterbay_prompt/serial_io.py:7-11 | a new console holds the given input bytes and has written nothing |
| Serial.Console.Write | peterbay_prompt/serial_io.py:13-14 | the text is appended to what was written; input untouched |
| Serial.Console.WriteLine | peterbay_prompt/serial_io.py:16-17 | the text followed by CR LF is appended to what was written |
| Serial.Console.Read | peterbay_prompt/input.py:152 | takes the first waiting byte and leaves the rest; writes nothing |
| Input.DecodeEscapeCode | peterbay_prompt/input.py:83-108 | a name found is never empty; with no parameter and no intermediate the result is the special-key table entry for the final byte, and none for `~` |
| Input.ScanRange | peterbay_prompt/input.py:57-81 | a finished scan stops at a character outside the range |
| Input.ScanConsumes | peterbay_prompt/input.py:64-75 | a scan only reads from the front of the stream |
| Input.CsiSpec | peterbay_prompt/input.py:115-133 | a decoded control sequence consumes at least one byte, from the front |
| Input.EscapeSpec | peterbay_prompt/input.py:110-147 | a decoded escape consumes at least one byte, from the front |
| Input.ReadKeySpec | peterbay_prompt/input.py:149-182 | nothing pending gives no key and consumes nothing; otherwise at least one byte is consumed, from the front |
| Input.ScanStep | peterbay_prompt/input.py:71-75 | an in-range character joins the run and the scan goes on with the next byte |
| Input.ScanAdvance | peterbay_prompt/input.py:71-75 | the loop invariant of the scan survives reading one more byte |
| Input.ScanStop | peterbay_prompt/input.py:71 | the scan ends at the first character outside the range |
| Input.ScanBad | peterbay_prompt/input.py:74 | a byte ASCII cannot decode ends the scan with a decoding error |
| Input.ReadInRange | peterbay_prompt/input.py:57-81 | reads exactly what `ScanRange` says and writes nothing |
| Input.ReadEscapeCode | peterbay_prompt/input.py:110-147 | the name read and the bytes left are those of `EscapeSpec`; None stands for a decoding error |
| Input.ReadKey | peterbay_prompt/input.py:149-182 | the key read and the bytes left are those of `ReadKeySpec` |
| Input.Chars | peterbay_prompt/input.py:67-74 | ASCII decoding keeps every byte as the character with that code |
| Input.ScanRun | peterbay_prompt/input.py:71-75 | a run of in-range bytes followed by an out-of-range byte is scanned as that run and stops at that byte |
| Input.CsiTotal | peterbay_prompt/input.py:122-133 | parameter bytes, intermediate bytes and a final byte decode to the name of that sequence, and exactly those bytes are consumed |
| Input.CsiKey | peterbay_prompt/input.py:149-161 | the same through key reading, with the ESC and `[` in front |
| Input.PlainKeyNames | peterbay_prompt/input.py:14-44 | `A` is UP, `H` is HOME, `3~` is DELETE, `15~` is F5, and a bare `~` has no name |
| Input.ControlDeleteName | peterbay_prompt/input.py:93-106 | `3;5~` is CONTROL_DELETE |
| Input.ControlUpName | peterbay_prompt/input.py:93-98 | `1;5A` is CONTROL_UP |
| Input.UnknownModifierName | peterbay_prompt/input.py:93-98 | the unknown modifier 9 gives no name |
| Input.ModifiedKey | peterbay_prompt/input.py:93-98 | `1;m X` is `<MOD>_<KEY>` when both the modifier and the key resolve; an unknown modifier gives no name |
| Input.SingleByteKeys | peterbay_prompt/input.py:166-180 | a control byte other than ESC is `CTRL_x`, 32..126 a character, 127 BACKSPACE, 128 and up no key; each consumes one byte |
| Input.NamedControlKeys | peterbay_prompt/input.py:156-168 | Enter is `CTRL_M`, Tab is `CTRL_I`, and a lone ESC is `ESC` |
| Input.AltKeys | peterbay_prompt/input.py:135-147 | after ESC a control byte gives `CTRL_ALT_x`, a lowercase letter `ALT_X`, and `O x` the special key or the raw `Ox` |
| Input.UpBytes | peterbay_prompt/input.py:115-131 | the bytes `ESC [ A` read as UP |
| Input.DeleteBytes | peterbay_prompt/input.py:115-131 | the bytes `ESC [ 3 ~` read as DELETE |
| Input.ControlDeleteBytes | peterbay_prompt/input.py:93-131 | the bytes `ESC [ 3 ; 5 ~` read as CONTROL_DELETE |
| History.Appended | peterbay_prompt/history.py:64-79 | keeps the browse index between -1 and the entry count; size, enabled flag and draft unchanged |
| History.AppendIgnored | peterbay_prompt/history.py:65-69 | a blank entry, a disabled history or size 0 changes nothing, the index included |
| History.AppendStores | peterbay_prompt/history.py:71-79 | otherwise the entry is last and the index is the new length; an entry equal to the newest leaves the entries unchanged; any other is appended, and the oldest is dropped exactly when the length would exceed the size |
| History.AppendNoAdjacentDuplicates | peterbay_prompt/history.py:73-74 | appending never puts two equal entries next to each other |
| History.AppendBounded | peterbay_prompt/history.py:76-77 | appending keeps the length within the size |
| History.Browsed | peterbay_prompt/history.py:34-62 | browsing keeps the browse index in range and never changes the entries, size or enabled flag |
| History.BrowseInert | peterbay_prompt/history.py:37-38 | a disabled or empty history gives the text back and changes nothing |
| History.PrevSteps | peterbay_prompt/history.py:45-47 | PREV from index i > 0 moves to i-1 and shows that entry; at 0 it shows the text and stays |
| History.NextReturnsDraft | peterbay_prompt/history.py:42-58 | NEXT from the last entry moves to the fresh position and shows the stashed draft; at the fresh position it only stashes the text |
| History.PrevNextRestoresDraft | peterbay_prompt/history.py:42-58 | PREV then NEXT from the fresh position shows the draft again and returns to the fresh position |
| History.NewestWithPrefix | peterbay_prompt/history.py:98-100 | the newest entry starting with the prefix, or None when no entry does |
| History.PyIndex | peterbay_prompt/history.py:93 | Python indexing: 0..n-1 from the oldest, -n..-1 from the newest, anything else fails |
| History.RecallSelects | peterbay_prompt/history.py:88-100 | `!text` is looked up by the text after `!` |
| History.ParseMinusOne | peterbay_prompt/history.py:88-89 | the text `-1` parses as -1 |
| History.RecallLast | peterbay_prompt/history.py:88-93 | `!!` recalls the newest entry |
| History.RecallFromOldest | peterbay_prompt/history.py:91-95 | `!n` recalls entry n counted from the oldest, 0 first, or None out of range |
| History.RecallFromNewest | peterbay_prompt/history.py:91-95 | `!-n` recalls the n-th newest entry, or None out of range |
| History.RecallByPrefix | peterbay_prompt/history.py:97-100 | `!text` not starting with a digit or `-` recalls the newest entry starting with the text |
| History.RecallNeedsBang | peterbay_prompt/history.py:82-86 | a command shorter than 2 characters or not starting with `!` recalls nothing |
| History.LastEntries | peterbay_prompt/history.py:30 | `entries[-size:]`: the last `size` entries, and every entry for size 0 |
| History.ResizedAsWritten | peterbay_prompt/history.py:27-32 | the resize as written: the size is the one given, the entries are a suffix of the old ones (at most `size` of them for a new non-zero size) and the same as the corrected resize keeps, and the browse index is left unchanged; `History.ResizeBreaksIndex` shows that this can leave it past the end |
| History.ResizeBreaksIndex | peterbay_prompt/history.py:27-32 | as written, shrinking a 3-entry history browsed at its fresh position to size 1 leaves the index past the end |
| History.Resized | peterbay_prompt/history.py:27-32 | the corrected resize (browse index clamped into the list): the size is the one given; enabled flag kept |
| History.ResizeKeepsValid | peterbay_prompt/history.py:27-32 | resizing with the index corrected keeps the index in range, keeps a suffix of the entries and, for a new non-zero size, at most that many |
| History.WithEntries | peterbay_prompt/history.py:18-21 | with a non-zero size the list is taken and the index is its length; with size 0 nothing changes |
| History.Emptied | peterbay_prompt/history.py:23-25 | no entries and index -1 |
| History.HistoryLog.constructor | peterbay_prompt/history.py:6-13 | size 30, no entries, index -1, enabled, empty draft |
| History.HistoryLog.Append | peterbay_prompt/history.py:64-79 | the fields change as `Appended` says |
| History.HistoryLog.Action | peterbay_prompt/history.py:34-62 | the fields and the text shown are those of `Browsed` |
| History.HistoryLog.GetEntry | peterbay_prompt/history.py:81-100 | the result is `Recall` of the entries and the command |
| History.HistoryLog.SetSize | peterbay_prompt/history.py:27-32 | the fields change as the corrected `Resized` says, keeping the browse index inside the list |
| History.HistoryLog.Set | peterbay_prompt/history.py:18-21 | the fields change as `WithEntries` says |
| History.HistoryLog.Clean | peterbay_prompt/history.py:23-25 | the fields change as `Emptied` says |
| Editor.Moved | peterbay_prompt/prompt.py:64-77 | the cursor moves by the count clamped to the buffer, nothing else changes, the returned movement is the distance actually travelled, and CUB or CUF is written with that distance (nothing when it is zero) |
| Editor.CutRange | peterbay_prompt/prompt.py:89-98 | a backward deletion ends at the old cursor and is at most as long as the text before it; a forward one starts at the cursor and is at most as long as the text after it; the span lies inside the buffer |
| Editor.Removed | peterbay_prompt/prompt.py:89-107 | the corrected deletion (the cut direction passed on to the copy buffer): removing text keeps the cursor inside the buffer, never lengthens the buffer and leaves settings, history and completion alone |
| Editor.RemovedAsWritten | peterbay_prompt/prompt.py:89-107 | the deletion as written: the cursor stays inside the buffer and the buffer never lengthens; the new line and the output are those of the corrected `Editor.Removed`, only the copy buffer may differ, and without a copy key the two agree; `Editor.BackwardCutsAsWritten` and `Editor.CopyOrderAsWritten` state the out-of-order copy buffer |
| Editor.RemoveDeletesSpan | peterbay_prompt/prompt.py:89-107 | a deletion removes exactly the span between the old cursor and the clamped target, leaves the cursor at its start and ends with DCH for the span's length; at the start of the buffer a backward deletion changes nothing and writes nothing |
| Editor.CutsCoalesce | peterbay_prompt/prompt.py:79-87 | with the corrected deletion, repeating the same cutting key grows the copy buffer: a backward cut goes in front, a forward cut behind (as written, a backward cut goes behind; see Findings) |
| Editor.CutReplacesCopy | peterbay_prompt/prompt.py:79-87 | a cut after a different key replaces the copy buffer with exactly the removed text |
| Editor.BackwardCutAsWritten | peterbay_prompt/prompt.py:89-107 | as written, a backward cut of k characters removes them and puts the cursor at their start, but a repeated key appends the removed text behind the copy buffer |
| Editor.BackwardCut | peterbay_prompt/prompt.py:89-107 | with the direction kept, a backward cut of k characters removes them and a repeated key puts them in front of the copy buffer; after another key they replace it |
| Editor.BackwardCutsAsWritten | peterbay_prompt/prompt.py:79-107 | as written, two backward cuts in a row leave the copy buffer holding the later (right-hand) piece first, out of buffer order |
| Editor.BackwardCutsKeepOrder | peterbay_prompt/prompt.py:79-107 | with the direction kept, two backward cuts in a row leave the copy buffer holding the whole removed stretch in buffer order |
| Editor.CopyOrderAsWritten | peterbay_prompt/prompt.py:79-107 | as written, CTRL_W twice at the end of "foo bar" empties the line and leaves "barfoo " to yank |
| Editor.CopyOrderCorrected | peterbay_prompt/prompt.py:79-107 | with the direction kept, the same two CTRL_W leave "foo bar" to yank |
| Editor.Added | peterbay_prompt/prompt.py:109-123 | text that would take the buffer past the maximum length is refused with no change; otherwise it is inserted at the cursor and the cursor ends just after it |
| Editor.SkipLeft | peterbay_prompt/prompt.py:129-133 | scanning left stops at the first character on the other side of the space/non-space boundary, or before the buffer, having crossed only characters of the scanned kind |
| Editor.SkipRight | peterbay_prompt/prompt.py:142-146 | scanning right stops at the first character on the other side of the boundary, or at the end, having crossed only characters of the scanned kind |
| Editor.WordStart | peterbay_prompt/prompt.py:125-135 | the offset to the start of the word before the cursor: spaces just before the cursor, then one word, and the new position is the buffer start or follows a space |
| Editor.WordEnd | peterbay_prompt/prompt.py:137-148 | the offset to the end of the word after the cursor: spaces after the cursor, then one word, and the new position is the buffer end or a space |
| Editor.Replaced | peterbay_prompt/prompt.py:55-62 | replacing the buffer by itself changes nothing; otherwise the new text becomes the buffer with the cursor at its end, or the buffer is left empty when the text is too long; copy buffer, last key, history and completion are kept |
| Editor.ClearedScreen | peterbay_prompt/prompt.py:44-53 | the screen is cleared and the cursor homed first; with the buffer cleared nothing else is written, otherwise the prompt and buffer are redrawn and the state is unchanged |
| Editor.MotionKey | peterbay_prompt/prompt.py:185-195 | a cursor key changes only the cursor, which stays inside the buffer |
| Editor.DeletionKey | peterbay_prompt/prompt.py:197-219 | a deleting or cutting key never lengthens the buffer and keeps the settings |
| Editor.FeatureKey | peterbay_prompt/prompt.py:203-242 | completion, redraw, yank and history browsing keep the cursor inside the buffer, the settings and the maximum length |
| Editor.EditKey | peterbay_prompt/prompt.py:185-245 | any handled non-character key keeps the cursor inside the buffer, the settings and the maximum length |
| Editor.ProcessKey | peterbay_prompt/prompt.py:177-249 | processing a key keeps the cursor inside the buffer, the settings and the maximum length, and a character key is always handled |
| Editor.UnhandledKeyInert | peterbay_prompt/prompt.py:177-179 | a key that is not handled writes nothing and leaves buffer, cursor, copy buffer, last key and history alone; only completion is reset (unless it is Tab) |
| Editor.ResetCompletion | peterbay_prompt/prompt.py:178-179 | resetting completion before a key touches nothing but the completion state |
| Editor.EditApplied | peterbay_prompt/prompt.py:244-249 | a handled edit key is reported handled and becomes the last key |
| Editor.BackspaceRemovesPrevious | peterbay_prompt/prompt.py:197-198 | BACKSPACE removes the character before the cursor and moves back one; at the start of the line it changes nothing and writes nothing |
| Editor.DeleteRemovesCurrent | peterbay_prompt/prompt.py:200-201 | DELETE removes the character under the cursor without moving it; at the end of the line the buffer is unchanged |
| Editor.DeletionAtCursor | peterbay_prompt/prompt.py:200-201 | the DELETE edit removes the character under the cursor and keeps the cursor |
| Editor.KillToEnd | peterbay_prompt/prompt.py:206-207 | CTRL_K keeps only the text before the cursor and leaves the cursor where it was |
| Editor.KillToStart | peterbay_prompt/prompt.py:209-210 | CTRL_U keeps only the text from the cursor on, moves the cursor to the start and, after another key, puts the removed text in the copy buffer |
| Editor.DeletionToStart | peterbay_prompt/prompt.py:209-210 | the CTRL_U edit removes everything before the cursor and copies it after another key |
| Editor.YankInserts | peterbay_prompt/prompt.py:227-228 | CTRL_Y inserts the copy buffer at the cursor and moves the cursor past it |
| Editor.KillThenYankRestores | peterbay_prompt/prompt.py:209-228 | CTRL_U followed by CTRL_Y gives back the original line and cursor |
| Editor.TypingScenario | peterbay_prompt/prompt.py:177-198 | typing "abc", two LEFT and BACKSPACE leaves "bc" with the cursor at the start |
| Editor.HistoryListing | peterbay_prompt/prompt.py:160-163 | the history listing has one line per entry, numbered from 0 in three right-aligned columns |
| Editor.InternalCommands | peterbay_prompt/prompt.py:150-175 | internal commands never change the history, and a submitted line is the stripped buffer or an entry of the history |
| Editor.Interrupted | peterbay_prompt/prompt.py:251-254 | an interrupt writes a new line, empties the buffer and asks for a fresh prompt, keeping history and copy buffer |
| Editor.PromptShown | peterbay_prompt/prompt.py:256-264 | a pending prompt is written first and recorded as the prompt string; with none pending nothing happens |
| Editor.Entered | peterbay_prompt/prompt.py:277-292 | after Enter the buffer is empty, and a returned line comes with a fresh prompt for the next read |
| Editor.Concluded | peterbay_prompt/prompt.py:280-292 | after an internal command or a submitted line the buffer is empty, and a returned line comes with a fresh prompt |
| Editor.ReadStep | peterbay_prompt/prompt.py:256-292 | a read returns a line only for an unhandled Enter key, and then with an empty buffer and a fresh prompt pending |
| Editor.KeyStep | peterbay_prompt/prompt.py:266-292 | a read key returns a line only when it is Enter, and then with an empty buffer and a fresh prompt pending |
| Editor.EnterUnhandled | peterbay_prompt/prompt.py:185-245 | no edit handles Enter, so processing it only resets completion |
| Editor.EnterReads | peterbay_prompt/prompt.py:273-281 | with commands enabled, Enter goes on to the command handling |
| Editor.EnterSubmitsLine | peterbay_prompt/prompt.py:277-292 | Enter on an ordinary line returns the stripped buffer, appends it to the history when enabled and empties the buffer |
| Editor.EnterInternalCommand | peterbay_prompt/prompt.py:150-165 | Enter on "clear" or "history" returns nothing, keeps the history, empties the buffer and ends by writing the prompt again |
| Editor.EnterRecallsEntry | peterbay_prompt/prompt.py:167-173 | Enter on a `!` command that recalls a non-empty entry echoes that entry, returns it and records it in the history |
| PromptLine.Prompt.constructor | peterbay_prompt/prompt.py:21-24 | a new prompt is bound to its console and starts with an empty buffer, maximum length 120, everything enabled and a fresh history and completer |
| PromptLine.Prompt.Clear | peterbay_prompt/prompt.py:26-28 | the buffer is emptied and the cursor returns to the start; nothing else changes |
| PromptLine.Prompt.SetMaxLength | peterbay_prompt/prompt.py:30-32 | only the maximum length changes (a negative length is ruled out by its type) |
| PromptLine.Prompt.EnableCommands | peterbay_prompt/prompt.py:34-35 | only the commands flag changes |
| PromptLine.Prompt.EnableClearScreen | peterbay_prompt/prompt.py:37-38 | only the clear-screen flag changes |
| PromptLine.Prompt.SetBuffer | peterbay_prompt/prompt.py:40-42 | the buffer is replaced and the cursor put at its end, keeping the cursor inside the buffer |
| PromptLine.Prompt.MoveCursor | peterbay_prompt/prompt.py:64-77 | the object changes and writes exactly as the cursor-movement function says and returns the distance travelled; no input is consumed |
| PromptLine.Prompt.SetCopyText | peterbay_prompt/prompt.py:79-87 | only the copy buffer changes, joined or replaced according to the last key and the direction |
| PromptLine.Prompt.CutSpan | peterbay_prompt/prompt.py:89-98 | the cursor moves to the start of the span to delete and the method returns its length, with the sign of the requested direction |
| PromptLine.Prompt.RemoveChars | peterbay_prompt/prompt.py:89-107 | the object and the output follow the corrected deletion function, with the cut direction kept |
| PromptLine.Prompt.AddChars | peterbay_prompt/prompt.py:109-123 | the object and the output follow the insertion function: refused past the maximum length, otherwise inserted at the cursor |
| PromptLine.Prompt.GetWordStart | peterbay_prompt/prompt.py:125-135 | the two scanning loops return the offset to the start of the previous word |
| PromptLine.Prompt.GetWordEnd | peterbay_prompt/prompt.py:137-148 | the two scanning loops return the offset to the end of the next word |
| PromptLine.Prompt.ReplaceBuffer | peterbay_prompt/prompt.py:55-62 | the object and the output follow the buffer-replacement function |
| PromptLine.Prompt.ClearScreen | peterbay_prompt/prompt.py:44-53 | the object and the output follow the screen-clearing function |
| PromptLine.Prompt.MotionKeys | peterbay_prompt/prompt.py:185-195 | a cursor key is reported handled and applied as the motion function says; any other key changes and writes nothing |
| PromptLine.Prompt.DeletionKeys | peterbay_prompt/prompt.py:197-219 | a deleting or cutting key is reported handled and applied as the deletion function says; any other key changes and writes nothing |
| PromptLine.Prompt.FeatureKeys | peterbay_prompt/prompt.py:203-242 | completion, redraw, yank and history keys are reported handled and applied when enabled; any other key changes and writes nothing |
| PromptLine.Prompt.EditKeys | peterbay_prompt/prompt.py:185-245 | a non-character key is handled exactly when the edit function handles it, with the same new state and output |
| PromptLine.Prompt.ProcessKey | peterbay_prompt/prompt.py:177-249 | the new state, the output and the handled flag are those of the key-processing function |
| PromptLine.Prompt.ListHistory | peterbay_prompt/prompt.py:160-163 | the history listing is written, one numbered line per entry |
| PromptLine.Prompt.InternalCommands | peterbay_prompt/prompt.py:150-175 | the state, the output and the command are those of the internal-command function |
| PromptLine.Prompt.KeyboardInterrupt | peterbay_prompt/prompt.py:251-254 | a new line is written, the buffer emptied and a fresh prompt requested |
| PromptLine.Prompt.ShowPrompt | peterbay_prompt/prompt.py:256-264 | a pending prompt is written with the buffer as the prompt function says |
| PromptLine.Prompt.Enter | peterbay_prompt/prompt.py:277-292 | Enter handles internal commands or submits the line as the Enter function says |
| PromptLine.Prompt.Conclude | peterbay_prompt/prompt.py:280-292 | an internal command writes the prompt again; a submitted line is recorded in the history and returned |
| PromptLine.Prompt.HandleKey | peterbay_prompt/prompt.py:266-292 | a key read from the console is processed and an unhandled Enter submits the line, as the key-step function says |
| PromptLine.Prompt.ReadNonBlocking | peterbay_prompt/prompt.py:256-292 | one read consumes exactly the bytes the key decoder takes and behaves as the read-step function says, returning a line only for Enter |
| Tokenizing.Prepend | peterbay_prompt/tokenizer.py:193-230 | tokens gathered before a turn stay in front of whatever the rest of the loop produces, and an error or a hang is passed on |
| Tokenizing.PrependPrepend | peterbay_prompt/tokenizer.py:193-230 | gathering tokens in two batches is the same as gathering them in one |
| Tokenizing.UntilChars | peterbay_prompt/tokenizer.py:13-18 | the scan stops at the first position holding one of the characters, or at the end, and crosses none of them |
| Tokenizing.ExcludeChars | peterbay_prompt/tokenizer.py:20-25 | the scan stops at the first position not holding one of the characters, or at the end, and crosses only them |
| Tokenizing.UntilCharsIs | peterbay_prompt/tokenizer.py:13-18 | a position with none of the characters before it and one of them at it (or the end) is where the scan stops |
| Tokenizing.QuotedAt | peterbay_prompt/tokenizer.py:27-36 | a quoted text token holds everything up to the closing quote, and the scan resumes just after it; without a closing quote it takes the rest and points one past the end |
| Tokenizing.LongOptionAt | peterbay_prompt/tokenizer.py:38-69 | a long option whose name runs to the end of the text raises; otherwise it is a flag exactly when no delimiter follows the name, a quoted value always has a delimiter, and the delimiter is one of the configured ones |
| Tokenizing.ShortTokens | peterbay_prompt/tokenizer.py:74-82 | a `-abc` group gives one option token per letter, in order, each remembering the group |
| Tokenizing.ShortOptionsAt | peterbay_prompt/tokenizer.py:71-83 | the group runs up to the next space or the end, and its letters become the tokens |
| Tokenizing.TextAt | peterbay_prompt/tokenizer.py:85-112 | a word gives exactly one token, and stays where it was only at a space or, with key-value pairs on, at `=` |
| Tokenizing.SpaceAt | peterbay_prompt/tokenizer.py:114-122 | a space token holds the whole run of spaces and the scan resumes at the next non-space |
| Tokenizing.StepAt | peterbay_prompt/tokenizer.py:196-214 | a turn of the loop never moves backwards and goes at most one past the end; it stays put only on an `=` with key-value pairs on |
| Tokenizing.Tokenized | peterbay_prompt/tokenizer.py:187-230 | a limit that is not positive fails the assertion |
| Tokenizing.ShortGroupStep | peterbay_prompt/tokenizer.py:202-208 | a dash followed by letters up to a space gives one option token per letter |
| Tokenizing.LongValueStep | peterbay_prompt/tokenizer.py:53-69 | `--name=value` gives one long option with that name, delimiter and unquoted value, ending at the next space |
| Tokenizing.SpaceStep | peterbay_prompt/tokenizer.py:210-211 | a run of spaces gives one space token holding the run |
| Tokenizing.WordStep | peterbay_prompt/tokenizer.py:213-214 | a plain word gives one text token holding it, without quote |
| Tokenizing.LongOptionAtEndRaises | peterbay_prompt/tokenizer.py:38-41 | a long option whose name reaches the end of the line raises, since the character after it is read |
| Tokenizing.EqualsHangs | peterbay_prompt/tokenizer.py:96-112 | with key-value pairs on and no limit, a word starting with `=` makes the loop never return |
| Tokenizing.LimitNeverHangs | peterbay_prompt/tokenizer.py:216-228 | with a limit the loop always ends |
| Tokenizing.ToString | peterbay_prompt/tokenizer.py:153-185 | `to_string(tokens)`: no tokens give the empty string, and otherwise the text starts with the first token's own text (an option with its dash); `Tokenizing.EmitAppend` and `Tokenizing.RoundTrip` state what the whole text is |
| Tokenizing.EmitAppend | peterbay_prompt/tokenizer.py:153-185 | writing back two lists of tokens one after the other is writing back their concatenation |
| Tokenizing.ShortTokensText | peterbay_prompt/tokenizer.py:168-169 | an option group is written back as a dash and its letters (no dash when it follows another option) |
| Tokenizing.EmitCons | peterbay_prompt/tokenizer.py:153-185 | writing back a token and then the rest is writing back the whole list |
| Tokenizing.QuotedRoundTrip | peterbay_prompt/tokenizer.py:27-36 | a closed quoted text is written back exactly as it appeared |
| Tokenizing.LongRoundTrip | peterbay_prompt/tokenizer.py:38-69 | a long option is written back exactly as it appeared |
| Tokenizing.LongValueRoundTrip | peterbay_prompt/tokenizer.py:53-69 | an unquoted long option value is written back exactly as it appeared |
| Tokenizing.QuotedValueText | peterbay_prompt/tokenizer.py:56-63 | a quoted long option value is the opening quote, its content and the closing quote |
| Tokenizing.TextRoundTrip | peterbay_prompt/tokenizer.py:85-112 | a word or key-value pair is written back exactly as it appeared |
| Tokenizing.StepRoundTrip | peterbay_prompt/tokenizer.py:196-214 | a turn that moves on and produces a token writes back exactly the text it consumed |
| Tokenizing.ScanRoundTrip | peterbay_prompt/tokenizer.py:196-230 | when every turn moves on within the text and produces a token, the loop returns tokens that write back to the rest of the text |
| Tokenizing.JoinRoundTrip | peterbay_prompt/tokenizer.py:153-185 | writing back the tokens of two adjacent pieces gives both pieces |
| Tokenizing.RoundTrip | peterbay_prompt/tokenizer.py:153-230 | `to_string(tokenize(text)) == text` whenever no turn loses text (no unclosed quote, no lone dash) |
| Tokenizing.UnterminatedQuoteGainsQuote | peterbay_prompt/tokenizer.py:27-36 | an unclosed quote takes the rest of the line and is written back with a closing quote added |
| Tokenizing.LoneDashDropped | peterbay_prompt/tokenizer.py:71-83 | a dash on its own gives no token, so it is lost when written back |
| Tokenizing.ExampleTokenize | peterbay_prompt/tokenizer.py:187-230 | `--name=value -ab pos1` tokenizes into the long option, a space, the options a and b, a space and the word |
| Tokenizing.ExampleRoundTrip | peterbay_prompt/tokenizer.py:153-230 | that line is written back unchanged |
| Tokenizing.ExampleTokensText | peterbay_prompt/tokenizer.py:153-185 | those tokens write back to that line |
| Tokenizing.TextsOf | peterbay_prompt/tokenizer.py:134-138 | there are no more text contents than tokens |
| Tokenizing.TextsOfAppend | peterbay_prompt/tokenizer.py:134-138 | a text token adds its content at the end; other tokens add nothing |
| Tokenizing.AbsorbTables | peterbay_prompt/tokenizer.py:140-144 | an option token sets its name in the options and a key-value token sets its name in the pairs, replacing an earlier value |
| Tokenizing.ToDict | peterbay_prompt/tokenizer.py:124-151 | `to_dict(tokens)`: there are no positional arguments without a command, and command and positional arguments together are no more than the tokens; `Tokenizing.CommandThenPositional`, `Tokenizing.LastOptionWins`, `Tokenizing.LastKeyValueWins` and `Tokenizing.SpacesIgnored` state the full result |
| Tokenizing.CommandThenPositional | peterbay_prompt/tokenizer.py:124-151 | the first text token is the command and the following ones are the positional arguments, in order |
| Tokenizing.LastOptionWins | peterbay_prompt/tokenizer.py:140-141 | an option name maps to the content of its last occurrence, and every name appears once |
| Tokenizing.LastKeyValueWins | peterbay_prompt/tokenizer.py:143-144 | a key maps to the content of its last pair, and every key appears once |
| Tokenizing.SpacesIgnored | peterbay_prompt/tokenizer.py:130-144 | space tokens do not change the result |
| Tokenizing.Tokenizer.constructor | peterbay_prompt/tokenizer.py:7-8 | a new tokenizer uses `=` as the only long option delimiter |
| Tokenizing.Tokenizer.SetLongOptionDelimiters | peterbay_prompt/tokenizer.py:10-11 | the delimiters are replaced |
| Tokenizing.Tokenizer.ReadUntilChars | peterbay_prompt/tokenizer.py:13-18 | the loop stops where the scanning function says |
| Tokenizing.Tokenizer.ReadExcludeChars | peterbay_prompt/tokenizer.py:20-25 | the loop stops where the scanning function says |
| Tokenizing.Tokenizer.QuotedText | peterbay_prompt/tokenizer.py:27-36 | the quoted text token is appended and the next position returned |
| Tokenizing.Tokenizer.ReadLongOption | peterbay_prompt/tokenizer.py:38-69 | the long option token is appended and the next position returned |
| Tokenizing.Tokenizer.ReadShortOptions | peterbay_prompt/tokenizer.py:71-83 | the loop appends one option token per letter of the group and returns the position after it |
| Tokenizing.Tokenizer.ReadText | peterbay_prompt/tokenizer.py:85-112 | the word or key-value token is appended and the next position returned |
| Tokenizing.Tokenizer.ReadSpace | peterbay_prompt/tokenizer.py:114-122 | the space token is appended and the next position returned |
| Tokenizing.Tokenizer.ReadToken | peterbay_prompt/tokenizer.py:196-214 | one turn appends the tokens and returns the position the step function gives |
| Tokenizing.Tokenizer.Tokenize | peterbay_prompt/tokenizer.py:187-230 | where the source returns, the loop returns exactly the tokens of the model, including the rest-of-line token at the limit |
| Shell.NoLaterTotal | peterbay_prompt/terminal.py:25-28 | any two strings are ordered one way or the other by Python's string comparison |
| Shell.NoLaterAntisymmetric | peterbay_prompt/terminal.py:25-28 | two strings each no later than the other are equal |
| Shell.NoLaterTransitive | peterbay_prompt/terminal.py:25-28 | string order is transitive |
| Shell.Insert | peterbay_prompt/terminal.py:25-28 | inserting into a list adds exactly that one element |
| Shell.ConsSorted | peterbay_prompt/terminal.py:25-28 | an element no later than every element of a sorted list can go in front of it |
| Shell.InsertSorted | peterbay_prompt/terminal.py:25-28 | insertion keeps a list sorted |
| Shell.Sort | peterbay_prompt/terminal.py:25-28 | sorting gives a sorted permutation of the list |
| Shell.SortedUnique | peterbay_prompt/terminal.py:25-28 | two sorted lists with the same elements are equal, so the sorted order is the only one |
| Shell.CommandsListContents | peterbay_prompt/terminal.py:25-28 | the command list is sorted, holds exactly the internal names and the registered commands, and does not depend on the order of registration |
| Shell.HeadCommand | peterbay_prompt/terminal.py:86-89 | a line has a command exactly when its first token is a non-empty text token, and the command is that token's content |
| Shell.NextLine | peterbay_prompt/terminal.py:91-97 | a line is rewritten exactly when it tokenizes and its first word names an alias |
| Shell.ExpansionBounded | peterbay_prompt/terminal.py:83-99 | at most five alias expansions happen; a result still starting with an alias means the depth limit stopped it; without expansion the line is just tokenized |
| Shell.NoAliasesNoExpansion | peterbay_prompt/terminal.py:83-99 | without aliases a line is tokenized once, after its leading blanks, with key-value pairs on |
| Shell.AliasKeepsArguments | peterbay_prompt/terminal.py:91-97 | when the first word names an alias, the line is parsed again as the alias's command, a space and the rest of the line verbatim |
| Shell.AliasListing | peterbay_prompt/terminal.py:40-42 | the alias listing has one indented `name = command` line per alias, in table order |
| Shell.Internal | peterbay_prompt/terminal.py:30-81 | exactly `alias`, `unalias`, `help` and `free` are consumed; other lines write nothing and keep the aliases; only `alias` and `unalias` change the aliases |
| Shell.AliasDefinitionExpands | peterbay_prompt/terminal.py:44-46 | `alias name=command` defines the alias, so a line starting with that name continues with the command, and no other alias changes |
| Shell.UnaliasStopsExpansion | peterbay_prompt/terminal.py:53-55 | `unalias name` drops the alias, so a line starting with that name is tokenized as it stands |
| Shell.HelpListsCommands | peterbay_prompt/terminal.py:62-69 | `help` writes the optional message, a heading and the sorted list of all commands, joined by commas, and changes nothing |
| Shell.Offered | peterbay_prompt/terminal.py:105 | the completer is given the sorted command list, and the prompt stays consistent |
| Shell.TerminalStep | peterbay_prompt/terminal.py:104-116 | tokens are returned only for a finished line, i.e. after Enter, and never when an alias was defined or removed |
| Shell.AfterRead | peterbay_prompt/terminal.py:107-116 | what the prompt wrote comes first; no finished line means nothing else happens; tokens are returned only for a finished line that is not an internal command |
| Shell.Terminal.constructor | peterbay_prompt/terminal.py:16-20 | a new terminal has a fresh prompt, an empty alias table, a tokenizer with the default delimiter and no commands yet |
| Shell.Terminal.SetCommands | peterbay_prompt/terminal.py:22-23 | the command list is set |
| Shell.Terminal.GetCommandsList | peterbay_prompt/terminal.py:25-28 | the returned list is the sorted list of internal names and commands |
| Shell.Terminal.WriteAliasListing | peterbay_prompt/terminal.py:40-42 | one line per alias is written |
| Shell.Terminal.WriteHelp | peterbay_prompt/terminal.py:64-68 | the help text is written |
| Shell.Terminal.ProcessInternalCommands | peterbay_prompt/terminal.py:30-81 | the alias table, the output and the result follow the internal-command function |
| Shell.Terminal.RunCommand | peterbay_prompt/terminal.py:33-81 | on the parsed line, the alias table, the output and the result follow the branches of the internal-command function |
| Shell.Terminal.ParseBuffer | peterbay_prompt/terminal.py:83-99 | where the source returns, the recursion returns the tokens of the alias-expanding parse |
| Shell.Terminal.OfferCommands | peterbay_prompt/terminal.py:105 | only the completer's candidates change |
| Shell.Terminal.ReadLine | peterbay_prompt/terminal.py:105-109 | the commands are offered for completion and the prompt reads one key, with the effect the read-step function gives |
| Shell.Terminal.HandleEntry | peterbay_prompt/terminal.py:108-116 | a finished line is parsed and answered as the after-read function says |
| Shell.Terminal.ReadNonBlocking | peterbay_prompt/terminal.py:104-116 | one call consumes one key's bytes and changes the prompt, the aliases and the output exactly as the terminal-step function says |
| Shell.Terminal.KeyboardInterrupt | peterbay_prompt/terminal.py:101-102 | the prompt is interrupted |
| Menus.LocAppend | peterbay_prompt/menu.py:94-96 | stepping into the i-th child of the entry at a place gives a valid place holding that child |
| Menus.ReplaceAt | peterbay_prompt/menu.py:141-144 | after an entry is replaced in place, the place is still valid and holds the new entry |
| Menus.SameIdsReflexive | peterbay_prompt/menu.py:141-144 | a tree has the same ids as itself |
| Menus.ReplaceKeepsIds | peterbay_prompt/menu.py:141-144 | replacing an entry by one with the same ids keeps every id in the tree |
| Menus.SameIdsWellFormed | peterbay_prompt/menu.py:141-144 | a tree with the same ids as a well-formed tree is well formed |
| Menus.PathToList | peterbay_prompt/menu.py:29-38 | a dotted path splits into at least one segment, none holding a dot, that join back to the path; a list is taken as it is |
| Menus.FirstWith | peterbay_prompt/menu.py:72-78 | the result is the first child whose field holds the value; None means no child holds it |
| Menus.ChildBy | peterbay_prompt/menu.py:72-78 | a child is found only in an entry that has children, and within their range |
| Menus.ChildById | peterbay_prompt/menu.py:72-78 | with distinct sibling ids, every child is found by its own id |
| Menus.Resolve | peterbay_prompt/menu.py:40-59 | a found entry is at a valid place, and the empty-path error is raised exactly for an empty path |
| Menus.ResolveEndsAtLastId | peterbay_prompt/menu.py:40-59 | the found entry carries the id the path ends with |
| Menus.ResolveIdsAlong | peterbay_prompt/menu.py:40-59 | in a well-formed tree every place is found from the ids on the way to it, with or without the root's id in front |
| Menus.ResolveExtend | peterbay_prompt/menu.py:40-59 | one more child id on a path that finds an entry finds that child |
| Menus.ResolveExtendDeep | peterbay_prompt/menu.py:54-57 | the same below the first level of the path |
| Menus.ResolvePrefix | peterbay_prompt/menu.py:40-59 | a path of two or more segments that finds an entry still finds one without its last segment |
| Menus.FirstWithSameIds | peterbay_prompt/menu.py:72-78 | looking a child up by id gives the same answer in two lists with the same ids |
| Menus.ResolveSameIds | peterbay_prompt/menu.py:40-59 | lookups read ids only, so trees with the same ids resolve every path alike |
| Menus.Dashes | peterbay_prompt/menu.py:15 | the delimiter's run of dashes has the given length |
| Menus.WithHotkeys | peterbay_prompt/menu.py:140-144 | every child keeps its own hotkey or gets its 1-based position, one child for one child |
| Menus.ChildLines | peterbay_prompt/menu.py:142-154 | one line is written per child |
| Menus.WithHotkeysStep | peterbay_prompt/menu.py:140-144 | numbering one more child appends that child with its own hotkey or its position |
| Menus.ChildLinesSnoc | peterbay_prompt/menu.py:142-154 | one more child adds its line at the end |
| Menus.Rendered | peterbay_prompt/menu.py:131-167 | rendering keeps the current entry, the path and the exit flag |
| Menus.RenderAssignsHotkeys | peterbay_prompt/menu.py:140-154 | rendering gives each child of the current entry a hotkey, keeps the ones they had, numbers the others by position, changes nothing else and keeps the ids of the tree and the path naming the current entry |
| Menus.Configured | peterbay_prompt/menu.py:21-24 | after a new configuration the current entry is its root and the path is empty |
| Menus.PathInitialized | peterbay_prompt/menu.py:61-67 | an empty path raises the empty-path error, a path finding nothing raises menu-not-found, and otherwise the path names the new current entry |
| Menus.Reset | peterbay_prompt/menu.py:110-112 | reset makes the root current with the path holding the root's id |
| Menus.Hotkey | peterbay_prompt/menu.py:87-97 | the current entry stays a valid place |
| Menus.Back | peterbay_prompt/menu.py:99-108 | going back reports the top level exactly when the path has at most one segment, and then changes and writes nothing |
| Menus.ConsistentBackResolves | peterbay_prompt/menu.py:99-104 | when the path names the current entry, the shortened path finds an entry too |
| Menus.HotkeyEnters | peterbay_prompt/menu.py:87-97 | an unknown hotkey changes nothing; a child with children becomes current and its id joins the path; a leaf keeps the place; the path keeps naming the current entry |
| Menus.HotkeyThenBack | peterbay_prompt/menu.py:87-108 | entering a submenu by its hotkey and going back returns to the entry and path before, without reporting the top level |
| Menus.ResetIsTop | peterbay_prompt/menu.py:99-112 | after reset, going back reports the top level and changes nothing |
| Menus.BackLineShown | peterbay_prompt/menu.py:156-164 | "Back" is shown exactly below the top level; "Exit" exactly at the top level with exit enabled; otherwise nothing |
| Menus.Entered | peterbay_prompt/menu.py:177-195 | a line asks to exit only when it is "0" at the top level with exit enabled |
| Menus.ZeroAtTop | peterbay_prompt/menu.py:178-183 | "0" at the top level exits exactly when exit is enabled, and otherwise changes nothing |
| Menus.MenuStep | peterbay_prompt/menu.py:172-195 | a read asks to exit only after Enter with exit enabled, and keeps prompt and menu consistent |
| Menus.Menu.constructor | peterbay_prompt/menu.py:17-19 | a new menu has a fresh prompt, exit disabled, and as its configuration an entry with id and label "" and no children, standing for the source's empty dictionary (see Left out) |
| Menus.Menu.SetConfig | peterbay_prompt/menu.py:21-24 | the new configuration's root becomes current with an empty path |
| Menus.Menu.EnableExit | peterbay_prompt/menu.py:26-27 | only the exit flag changes |
| Menus.Menu.GetChildBy | peterbay_prompt/menu.py:72-78 | the loop returns the first matching child, as the lookup function says |
| Menus.Menu.GetItemByPath | peterbay_prompt/menu.py:40-59 | the recursion finds what the path-resolution function finds |
| Menus.Menu.InitPath | peterbay_prompt/menu.py:61-67 | a found path becomes current; an error leaves the menu unchanged and names what was raised |
| Menus.Menu.GetPathLabels | peterbay_prompt/menu.py:114-125 | the loop collects the labels of the path-labels function |
| Menus.Menu.WriteChildren | peterbay_prompt/menu.py:140-154 | the loop assigns the hotkeys and writes one line per child |
| Menus.Menu.WriteChild | peterbay_prompt/menu.py:146-153 | one child line is written |
| Menus.Menu.WriteHeader | peterbay_prompt/menu.py:132-138 | the delimiter, the labels line and the delimiter are written |
| Menus.Menu.WriteFooter | peterbay_prompt/menu.py:156-166 | the back or exit line, if any, and the delimiter are written |
| Menus.Menu.Render | peterbay_prompt/menu.py:131-167 | the tree and the output follow the rendering function |
| Menus.Menu.ActionHotkey | peterbay_prompt/menu.py:87-97 | the state and the output follow the hotkey function |
| Menus.Menu.ActionBack | peterbay_prompt/menu.py:99-108 | the state, the output and the top-level flag follow the back function |
| Menus.Menu.ActionReset | peterbay_prompt/menu.py:110-112 | the state follows the reset function |
| Menus.Menu.HandleEntry | peterbay_prompt/menu.py:177-195 | a finished line is handled as the entry function says |
| Menus.Menu.ReadNonBlocking | peterbay_prompt/menu.py:172-195 | one call consumes one key's bytes and changes prompt, menu and output as the menu-step function says |
| Menus.Menu.KeyboardInterrupt | peterbay_prompt/menu.py:169-170 | the prompt is interrupted |
| Wizards.SetUp | peterbay_prompt/wizard.py:56-76 | an entry sets up a widget exactly when its type is known, the widget of that type; a value widget always gets the default, a select only a default that is true |
| Wizards.Cleared | peterbay_prompt/wizard.py:29-32 | reset forgets the index, the active widget and the results, and keeps info, configuration and defaults |
| Wizards.InitEntry | peterbay_prompt/wizard.py:38-76 | the entry at the index (0 when unset) has its label written; an unknown type raises, naming the type and leaving the active widget as it was; otherwise its widget is set up with the default from the wizard's default values or the entry |
| Wizards.Stored | peterbay_prompt/wizard.py:78-80 | storing an answer puts it under the current entry's name and changes nothing else |
| Wizards.StoredKeepsOthers | peterbay_prompt/wizard.py:78-80 | storing an answer leaves the results under every other name alone |
| Wizards.Advanced | peterbay_prompt/wizard.py:82-89 | there is a next entry exactly when the index is not the last; at the last nothing changes; otherwise the index moves on and the next entry is set up or raises for an unknown type |
| Wizards.Started | peterbay_prompt/wizard.py:97-99 | the first call sets up entry 0 (raising for an unknown type); later calls change nothing here |
| Wizards.Step | peterbay_prompt/wizard.py:96-110 | every call leaves an entry current and keeps info, configuration and defaults |
| Wizards.Answered | peterbay_prompt/wizard.py:101-110 | after an answer an entry is still current and the configuration is kept |
| Wizards.FirstRead | peterbay_prompt/wizard.py:96-102 | the first call writes the info line and the first label; an unknown type raises; with no answer yet the first entry's widget is set up and the reply is None |
| Wizards.NoAnswerNoChange | peterbay_prompt/wizard.py:101-110 | once started, a call on which the widget gives nothing changes and writes nothing and returns None |
| Wizards.AnswerStored | peterbay_prompt/wizard.py:101-110 | an answer is stored under the entry's name, no other name changes, the results are returned exactly at the last entry, and otherwise the next entry is set up |
| Wizards.ReadyStep | peterbay_prompt/wizard.py:96-110 | from a ready wizard an answer is stored; the results come back exactly at the last entry, and otherwise the wizard is ready at the next entry |
| Wizards.ReadyStart | peterbay_prompt/wizard.py:96-104 | from a ready wizard a call goes straight to the answer with the entry at the index set up |
| Wizards.RunCollects | peterbay_prompt/wizard.py:96-110 | answering every remaining entry of a ready wizard with distinct names finishes on the last answer with each answer stored under its entry's name and every other result kept |
| Wizards.LastCollects | peterbay_prompt/wizard.py:96-110 | the answer to the last entry finishes the wizard with it stored |
| Wizards.CollectLast | peterbay_prompt/wizard.py:78-80 | storing the last answer collects it |
| Wizards.NextCollects | peterbay_prompt/wizard.py:96-110 | one answer followed by a run that collects the rest collects them all |
| Wizards.CollectCombine | peterbay_prompt/wizard.py:78-80 | an answer stored before the rest are collected, under a name no later entry has, stays collected |
| Wizards.TailAt | peterbay_prompt/wizard.py:82-89 | the answers after the first are the rest of the list, shifted by one |
| Wizards.WizardCollectsAll | peterbay_prompt/wizard.py:29-110 | after reset, a wizard whose entries have known types and distinct names, answered once per entry, returns results holding each answer under its entry's name |
| Wizards.Wizard.constructor | peterbay_prompt/wizard.py:12-19 | a new wizard has no info, no entries, no defaults and no results |
| Wizards.Wizard.SetConfig | peterbay_prompt/wizard.py:21-24 | info and entries are replaced and the wizard reset |
| Wizards.Wizard.SetDefaultValues | peterbay_prompt/wizard.py:26-27 | only the default values change |
| Wizards.Wizard.Reset | peterbay_prompt/wizard.py:29-32 | the state becomes the reset state |
| Wizards.Wizard.InitWizardEntry | peterbay_prompt/wizard.py:38-76 | the state, the output and the failure follow the entry set-up function |
| Wizards.Wizard.SetValue | peterbay_prompt/wizard.py:78-80 | the state follows the storing function |
| Wizards.Wizard.NextEntry | peterbay_prompt/wizard.py:82-89 | the state, the output and whether there was a next entry follow the advancing function |
| Wizards.Wizard.KeyboardInterrupt | peterbay_prompt/wizard.py:91-94 | the interrupt is passed on exactly when a widget is active and has a keyboard interrupt of its own |
| Wizards.Wizard.Start | peterbay_prompt/wizard.py:97-99 | the first call writes the info and sets up entry 0, as the start function says |
| Wizards.Wizard.ReadNonBlocking | peterbay_prompt/wizard.py:96-110 | the state, the output and the reply follow the step function |
| Select.MoveEscapeInjective | peterbay_prompt/select.py:51-57 | distinct line motions are written differently: the distance and the direction can be read back from the escape |
| Select.LineMove | peterbay_prompt/select.py:51-57 | no motion writes nothing; a move up writes CPL by the distance, a move down CNL, each followed by CHA to column 3 |
| Select.LineMoveInjective | peterbay_prompt/select.py:51-57 | two motions that write the same thing are the same motion |
| Select.OptionLine | peterbay_prompt/select.py:30-49 | an option line marks the option when its value is the chosen one (the first option's value when none was chosen), records the first such line as highlighted and marked, and changes nothing else |
| Select.OptionLines | peterbay_prompt/select.py:63-64 | one line is written per remaining option, and only the marking fields change |
| Select.QuestionLine | peterbay_prompt/select.py:60-61 | at most one question line is written |
| Select.Rendered | peterbay_prompt/select.py:59-68 | rendering marks the list as rendered and keeps the options |
| Select.FirstLineOf | peterbay_prompt/select.py:36-43 | the result is the first line showing the value; None means no line shows it |
| Select.OptionLinesFindFirst | peterbay_prompt/select.py:33-43 | with nothing highlighted yet, rendering highlights and marks the first line showing the chosen value |
| Select.OptionLinesKeepSet | peterbay_prompt/select.py:39-43 | a highlight and mark already set are kept by rendering |
| Select.RenderFindsActive | peterbay_prompt/select.py:59-68 | a fresh render succeeds exactly when the chosen value (the first option's when unset) appears in the list, and then highlights and marks its first line |
| Select.OptionLinesMarks | peterbay_prompt/select.py:30-49 | each option line shows "[x]" exactly when its value is the chosen one, then its label |
| Select.Reacted | peterbay_prompt/select.py:70-108 | keys keep the options, the question and the rendered flag, and only Enter returns a value |
| Select.HighlightStaysInRange | peterbay_prompt/select.py:70-89 | a highlighted line within the list stays within it, whatever the key |
| Select.HighlightMoves | peterbay_prompt/select.py:75-89 | HOME goes to the first line, END to the last, UP and DOWN move one line only where there is one |
| Select.ToggleMarks | peterbay_prompt/select.py:91-101 | Space or "x" on the marked line does nothing; on another line it marks that line's option and moves the "x" there, returning the cursor |
| Select.EnterReturnsMarked | peterbay_prompt/select.py:103-106 | Enter returns the marked value, not the highlighted one, and moves below the list |
| Select.UpThenEnterKeepsMarked | peterbay_prompt/select.py:83-106 | moving the highlight and pressing Enter without marking returns the option marked before |
| Select.ReadStep | peterbay_prompt/select.py:110-119 | one read consumes one key's bytes and leaves the list rendered |
| Select.SingleSelect.constructor | peterbay_prompt/select.py:8-14 | a new select has no options, nothing chosen and nothing rendered |
| Select.SingleSelect.SetQuestion | peterbay_prompt/select.py:16-18 | the question changes and the list must be rendered again |
| Select.SingleSelect.SetOptions | peterbay_prompt/select.py:20-22 | the options change and the list must be rendered again |
| Select.SingleSelect.SetActiveOption | peterbay_prompt/select.py:24-28 | the chosen value changes, highlight and mark are forgotten, and the list must be rendered again |
| Select.SingleSelect.WriteOptionLine | peterbay_prompt/select.py:30-49 | the state and the line written follow the option-line function |
| Select.SingleSelect.MoveCursor | peterbay_prompt/select.py:51-57 | the line motion is written |
| Select.SingleSelect.WriteOptionLines | peterbay_prompt/select.py:63-64 | the loop writes every option line, as the option-lines function says |
| Select.SingleSelect.WriteQuestion | peterbay_prompt/select.py:60-61 | the question line, if any, is written |
| Select.SingleSelect.Render | peterbay_prompt/select.py:59-68 | the state and the output follow the rendering function |
| Select.SingleSelect.ProcessKey | peterbay_prompt/select.py:70-108 | the state, the output and the result follow the key function |
| Select.SingleSelect.ReadNonBlocking | peterbay_prompt/select.py:110-119 | the state, the output, the result and the bytes consumed follow the read-step function |
| MultiChoice.Occurs | peterbay_prompt/multi_select.py:34 | a string found at the start of the text occurs in it, and only a string no longer than the text can occur in it |
| MultiChoice.MarksAfter | peterbay_prompt/multi_select.py:31-32 | after an option line the active options are set, and an unset value becomes the line's own value |
| MultiChoice.Settled | peterbay_prompt/multi_select.py:51-62 | with at least one option, rendering leaves the active options set |
| MultiChoice.OptionLine | peterbay_prompt/multi_select.py:28-41 | an option line shows "[x]" exactly when its value is active, and only the active options can change |
| MultiChoice.OptionLines | peterbay_prompt/multi_select.py:57-58 | one line is written per remaining option, and only the active options can change |
| MultiChoice.Rendered | peterbay_prompt/multi_select.py:51-62 | rendering marks the list rendered and highlights the first line, keeping the options |
| MultiChoice.OptionLinesIgnoreLine | peterbay_prompt/multi_select.py:28-41 | the option lines do not depend on the highlighted line |
| MultiChoice.OptionLinesKeepSet | peterbay_prompt/multi_select.py:28-41 | with the active options set, the lines change nothing and each shows "[x]" exactly for an active value |
| MultiChoice.RenderShowsMarks | peterbay_prompt/multi_select.py:51-62 | rendering writes the label, one line per option marked exactly when its value is active, and moves back to the first line |
| MultiChoice.RemoveFirst | peterbay_prompt/multi_select.py:88 | removing a value takes exactly one occurrence of it out |
| MultiChoice.Reacted | peterbay_prompt/multi_select.py:64-100 | keys keep options, label and rendered flag; exactly Enter returns a value; only Space and "x" change the active options |
| MultiChoice.HighlightStaysInRange | peterbay_prompt/multi_select.py:64-83 | a highlighted line within the list stays within it, whatever the key |
| MultiChoice.HighlightMoves | peterbay_prompt/multi_select.py:69-83 | HOME, END, UP and DOWN move the highlight to the first, last, previous or next line where there is one, writing the matching line motion |
| MultiChoice.ToggleFlips | peterbay_prompt/multi_select.py:85-93 | Space removes one occurrence of the highlighted value when active and adds it otherwise; no other value's count changes |
| MultiChoice.ToggledCounts | peterbay_prompt/multi_select.py:85-93 | the same on the list of active values: one occurrence of the value goes or it is appended, others unchanged |
| MultiChoice.OnceRemovedAbsent | peterbay_prompt/multi_select.py:88 | removing the only occurrence of a value leaves it absent |
| MultiChoice.ToggleTwice | peterbay_prompt/multi_select.py:85-93 | Space twice on an inactive value restores the state; on a value active once it restores the same active values, the value moved to the end |
| MultiChoice.RemoveAppended | peterbay_prompt/multi_select.py:88-92 | removing a value just appended to a list without it gives back the list |
| MultiChoice.RemoveFirstPast | peterbay_prompt/multi_select.py:88 | removal skips a different first element |
| MultiChoice.EnterReturnsMarks | peterbay_prompt/multi_select.py:95-98 | Enter returns the active options and moves below the list, changing nothing |
| MultiChoice.ToggleThenEnterExample | peterbay_prompt/multi_select.py:85-98 | with option3 active, Space on the first line and Enter return option3 and option1, in that order |
| MultiChoice.ReadStep | peterbay_prompt/multi_select.py:102-111 | one read consumes one key's bytes, leaves the list rendered and returns nothing when no key was read |
| MultiChoice.MultiSelect.constructor | peterbay_prompt/multi_select.py:8-13 | a new checklist has no options, an empty active list and nothing rendered |
| MultiChoice.MultiSelect.SetLabel | peterbay_prompt/multi_select.py:15-17 | the label changes and the list must be rendered again |
| MultiChoice.MultiSelect.SetOptions | peterbay_prompt/multi_select.py:19-21 | the options change and the list must be rendered again |
| MultiChoice.MultiSelect.SetActiveOptions | peterbay_prompt/multi_select.py:23-26 | the active options change, the highlight is forgotten and the list must be rendered again |
| MultiChoice.MultiSelect.WriteOptionLine | peterbay_prompt/multi_select.py:28-41 | the state and the line written follow the option-line function |
| MultiChoice.MultiSelect.MoveCursor | peterbay_prompt/multi_select.py:43-49 | the line motion is written |
| MultiChoice.MultiSelect.WriteOptionLines | peterbay_prompt/multi_select.py:57-58 | the loop writes every option line, as the option-lines function says |
| MultiChoice.MultiSelect.WriteLabel | peterbay_prompt/multi_select.py:52-53 | the label line, if any, is written |
| MultiChoice.MultiSelect.Render | peterbay_prompt/multi_select.py:51-62 | the state and the output follow the rendering function |
| MultiChoice.MultiSelect.ProcessKey | peterbay_prompt/multi_select.py:64-100 | the state, the output and the result follow the key function |
| MultiChoice.MultiSelect.ReadNonBlocking | peterbay_prompt/multi_select.py:102-111 | the state, the output, the result and the bytes consumed follow the read-step function |
| Validator.Subject | peterbay_prompt/validator.py:41 | the rules look at the input stripped, or as given with `no_strip` |
| Validator.CheckAllowedTypes | peterbay_prompt/validator.py:7-38 | the input is accepted exactly when the type list takes it (with "bool" only a true or false word, otherwise a float, an int, or anything under "str"); a rejection returns the input with "invalid value" under "bool" and "invalid type" otherwise; a boolean word gives True exactly for a true word; a float is taken whenever float parses, an int only when float does not, and str only when neither applies, returning the input unstripped |
| Validator.CheckRules | peterbay_prompt/validator.py:40-69 | a verdict is valid exactly when it has no error, and a rejected input is returned as given |
| Validator.Validate | peterbay_prompt/validator.py:71-74 | the same for the public entry point |
| Validator.ValidMeetsRules | peterbay_prompt/validator.py:40-69 | an accepted input meets the length, character and value rules; without a type list it is returned as given and matched the regex, if any |
| Validator.RulesMetIsValid | peterbay_prompt/validator.py:40-69 | conversely, an input meeting those rules with no type list and a matching regex (or none) is accepted as given |
| Validator.CheckOrder | peterbay_prompt/validator.py:43-58 | the first failing rule names the error: length, then characters, then allowed values |
| Validator.BoolAllowedOnlyWords | peterbay_prompt/validator.py:10-18 | with "bool" allowed, a true word gives True, a false word False, and anything else "invalid value", whatever other types are allowed |
| Validator.FloatBeforeInt | peterbay_prompt/validator.py:20-30 | with "float" allowed (and not "bool"), an input that float accepts whenever int does is never returned as an int: float is tried first |
| Validator.TypesAreFinal | peterbay_prompt/validator.py:60-61 | once a type list is given, the regex is never consulted |
| Validator.NoRulesAcceptAll | peterbay_prompt/validator.py:40-69 | with no rules every input is accepted as given |
| Validator.TypesDecide | peterbay_prompt/validator.py:60-61 | once the text rules pass, a type list decides alone: the verdict is the type check's, valid exactly when the list takes the text |
| Validator.ValidIff | peterbay_prompt/validator.py:40-74 | an input is accepted if and only if it meets the length, character and membership rules and then the type list takes it or, without one, the pattern (if any) matches |
| ValueCheck.CheckAllowedTypes | peterbay_prompt/value.py:16-45 | the input is accepted exactly when some allowed type takes the stripped text; a rejected input is returned as given with "invalid type - allowed types: " and the allowed types joined by ", "; the types are tried as bool, int, float, str: each accepted value parses from the stripped text as that type and no earlier allowed type applies; a boolean word under "bool" gives True exactly for a true word; an accepted str is the input as given |
| ValueCheck.Numeric | peterbay_prompt/value.py:49-53 | every value but a string compares with a bound as a number (a bool as 0 or 1) |
| ValueCheck.ValidateNumber | peterbay_prompt/value.py:47-56 | a string against a bound raises; otherwise the value is kept and valid exactly when within the bounds that are set |
| ValueCheck.TextCheck | peterbay_prompt/value.py:64-79 | there is no error if and only if the stripped input meets the length, character and value rules; the first rule broken names the error: "too short", "too long", "invalid character", then "invalid value" |
| ValueCheck.TypeCheck | peterbay_prompt/value.py:81-92 | the converted value is returned; it raises exactly when a str is taken with a number type allowed and a bound set; the verdict is valid exactly when the conversion succeeded and, with int or float allowed, the value lies within the bounds; a failed conversion keeps its message, a missed bound gives "too small" below the minimum and "too big" otherwise |
| ValueCheck.ValidateUserInput | peterbay_prompt/value.py:58-94 | a verdict is valid exactly when it has no error (which inputs are accepted and with which message each is rejected: `ValidIff` and `RejectionMessage` below) |
| ValueCheck.AcceptedMeetsRules | peterbay_prompt/value.py:58-94 | an accepted input meets the text rules on its stripped form, and an accepted number lies within the bounds |
| ValueCheck.UnusedKeysAccept | peterbay_prompt/value.py:58-94 | rules using none of the length, character, value or type keys accept the input as given |
| ValueCheck.BoolFallsThrough | peterbay_prompt/value.py:17-30 | with "bool" and "int" allowed, "5" is accepted as the int 5 here, while the other checker rejects it as an invalid value |
| ValueCheck.StringAgainstBoundRaises | peterbay_prompt/value.py:38-50 | with "int" and "str" allowed and a `min` bound, a stripped word that is not an integer is accepted as str and then raises when compared with the bound |
| ValueCheck.TypedWhenTextPasses | peterbay_prompt/value.py:81-94 | once the stripped input passes the text rules, the verdict is the one the type check gives |
| ValueCheck.TextRuleRejects | peterbay_prompt/value.py:62-79 | non-empty rules whose text rules the stripped input breaks reject the input as given, with the first broken rule's message |
| ValueCheck.TextRulesMetIsValid | peterbay_prompt/value.py:58-94 | conversely, rules without a type list whose text rules the stripped input meets accept the input as given |
| ValueCheck.RejectionMessage | peterbay_prompt/value.py:58-94 | a rejection names the first broken text rule; failing that, a type list that takes nothing, listing the allowed types; failing that, the bound missed ("too small" or "too big") |
| ValueCheck.ValidIff | peterbay_prompt/value.py:58-94 | an input is accepted if and only if the rules are empty, or its stripped form meets the text rules and, with a type list, some allowed type takes it and an allowed number lies within the bounds |
| ValueCheck.PercentileOfInt | peterbay_prompt/value.py:47-94 | with only "int" allowed between 0 and 1000, a stripped numeral for n gives "too small" below 0, "too big" above 1000 and the accepted int n otherwise |
| ValueCheck.NumeralParses | peterbay_prompt/value.py:28 | a decimal numeral parses back to its number |
| ValueCheck.InRangeAccepted | peterbay_prompt/value.py:58-94 | "500" is accepted as 500 between 0 and 1000 |
| ValueCheck.AboveRangeRejected | peterbay_prompt/value.py:52-54 | "1500" is rejected as too big |
| ValueCheck.WordIsNoInt | peterbay_prompt/value.py:26-30 | "abc" is not an integer |
| ValueCheck.WordRejected | peterbay_prompt/value.py:44-45 | a word that is not an integer is rejected with the list of allowed types when only int is allowed |
| ValueCheck.AbcRejected | peterbay_prompt/value.py:44-45 | "abc" is rejected with "invalid type - allowed types: int" |
| ValueCheck.Answered | peterbay_prompt/value.py:113-123 | no line means no answer and no output; a returned value is the one the input checker accepted, with nothing written; a line that gives no answer was rejected and its error is written as one line |
| ValueInput.ValuePrompt.constructor | peterbay_prompt/value.py:8-14 | a new value prompt has a fresh line editor, no rules and the words "yes" and "no" |
| ValueInput.ValuePrompt.SetRules | peterbay_prompt/value.py:96-97 | only the rules change |
| ValueInput.ValuePrompt.SetValue | peterbay_prompt/value.py:99-103 | a bool is shown as the true or false word, a string as itself, and the cursor goes to the end |
| ValueInput.ValuePrompt.SetSettings | peterbay_prompt/value.py:105-111 | each boolean word given in the settings replaces the current one; the rest is kept |
| ValueInput.ValuePrompt.ReadNonBlocking | peterbay_prompt/value.py:113-123 | one read drives the line editor and then answers as the answer function says |

## Left out

- The serial device, its timeout and the ASCII encoding of written text are outside the model. Reads take bytes from `Console.pending`, and writes append to `Console.written`.
- The key decoder raises when the stream runs dry inside an escape sequence, and when a control sequence carries two `;`. The model names both as `Fault`, and every reading method requires a key that is not a `Fault`.
- `gc` is not modelled. The allocated and free memory figures that `free` prints are a parameter.
- Python's `float()` is an oracle parameter (`FloatParser`), and so is `re.match`. The model does not define either.
- `Rules.FloatParser` gives a real number or nothing, so it cannot express "nan" or "inf", which Python's `float()` accepts. A NaN passes every `min` and `max` comparison in the source, and an infinity compares past every bound; the model does not capture either.
- `Common.ParseInt`: does not accept the underscore grouping or the non-ASCII digits that Python's `int()` accepts.
- `Common.Lower`, `Common.IsAlpha` and `Common.IsDigit` cover ASCII only: Python's `str.lower` and `str.isalpha` also act on non-ASCII letters, and that is not modelled. `Common.Strip` does remove Python's full set of whitespace characters.
- Callbacks are parameters or are left out. A menu entry's `get_value` result is the parameter `valueOf`. An entry's `action` callback is not modelled.
- `get_prompt_label` (menu.py:127-129) is not modelled.
- The source keeps some defaults as class attributes that are shared until an instance assigns them (for example `_rules`, `_history` and `_aliases`). The model gives each object its own copy.
- The configuration dictionaries that `Menu` updates in place are modelled as values. Writing a numbered hotkey into the caller's dictionary is therefore seen only through the menu's own state. The same holds for the active list that `MultiSelect` receives from its caller.
- Paths the source fails on are excluded by `requires`, each named after the predicate that rules it out:
  - `Menus.CanEnter`: a `0` whose parent path no longer resolves. There `action_back` sets the current entry to None, and `render` then raises `TypeError` at menu.py:81.
  - `Select.CanRender`: a list with no highlighted line (the source fails computing the cursor position).
  - `MultiChoice.CanProcess`: Space or `x` on a string active list, which has no `remove` or `append`.
  - `MultiChoice.CanProcess`: Space or `x` on an empty option list, where multi_select.py:86 raises `IndexError`.
  - `Select.CanProcess`: Space or `x` with the highlighted line outside the option list, where select.py:100 raises `IndexError`. An empty list cannot be rendered at all, so `Select.CanRender` already excludes it.
  - An Enter on a `Prompt` whose commands are disabled, where the source reads an unbound `buffer`.
  - A `Terminal` read before `set_commands`.
  - A wizard with an empty configuration, where the source raises `IndexError`.
- A tokenizer input on which the source raises or never returns is described by the `Raises` and `Hangs` outcomes. `Tokenizing.Tokenizer.Tokenize` and `Shell.Terminal.ParseBuffer` require an input that yields tokens.
- The wizard's widgets are abstract. The model records which widget an entry sets up and the default it receives. What the active widget's `read_non_blocking` returns on a call is a parameter. The widget data, rules and settings an entry carries are not passed on. A configuration entry without `name` (a `KeyError` in the source) is not modelled.
- single_select.py is not part of this model. `Select` (select.py) is the single-choice list modelled here, and its Enter returns the marked option, not the highlighted one.
- `\33[0P` and `\33[0D` are written for an empty deletion or a zero move. Terminals read a parameter of 0 as 1; the model records the bytes as written and does not model a terminal.
- `PromptLine.Prompt.SetMaxLength`: the assertion on a negative length is not modelled. The length is a `nat`, so a negative length cannot occur.
- `History.HistoryLog.SetSize`: the assertion on a negative size is not modelled. The size is a `nat`.
- History.HistoryLog.SetSize: follows the corrected `History.Resized`, which clamps the browse index into the shortened list. history.py:27-32 leaves the index where it was, so that the next PREV can raise `IndexError`. The as-written resize is `History.ResizedAsWritten`, and `History.ResizeBreaksIndex` exhibits the failure (see Findings).
- History.Resized: is the corrected resize, not the one history.py:27-32 performs (see the line above).
- Editor.Removed: models the corrected copy order. prompt.py:95 makes the count positive before `_set_copy_text`, so the source appends a repeated backward cut (CTRL_W, CTRL_U, BACKSPACE) behind the copy buffer, where `Editor.Removed` puts it in front. The as-written deletion is `Editor.RemovedAsWritten`. `Editor.CopyOrderAsWritten` shows the difference: CTRL_W twice at the end of "foo bar", then CTRL_Y, yanks "barfoo " in the source and "foo bar" in the model.
- Editor.CutsCoalesce: states the corrected order (a backward cut in front); the source appends it.
- Editor.DeletionKey: is built on the corrected `Editor.Removed`, so consecutive backward cuts collect in line order.
- Editor.EditKey: inherits the corrected copy order from `Editor.DeletionKey`.
- Editor.ProcessKey: inherits the corrected copy order from `Editor.DeletionKey`.
- Editor.KeyStep: inherits the corrected copy order from `Editor.DeletionKey`.
- Editor.ReadStep: inherits the corrected copy order from `Editor.DeletionKey`.
- Shell.TerminalStep: built on the corrected `Editor.ReadStep`, so it inherits the corrected copy order.
- Shell.Terminal.ReadLine: follows the corrected `Editor.ReadStep`.
- Shell.Terminal.ReadNonBlocking: follows the corrected `Shell.TerminalStep`.
- Menus.MenuStep: built on the corrected `Editor.ReadStep`, so it inherits the corrected copy order.
- Menus.Menu.ReadNonBlocking: follows the corrected `Menus.MenuStep`.
- ValueInput.ValuePrompt.ReadNonBlocking: drives the corrected `Editor.ReadStep`, so it inherits the corrected copy order.
- PromptLine.Prompt.RemoveChars: passes the signed count to `SetCopyText` (the corrected order), where prompt.py:95-103 passes its absolute value.
- PromptLine.Prompt.DeletionKeys: follows the corrected `Editor.DeletionKey`.
- PromptLine.Prompt.EditKeys: follows the corrected `Editor.EditKey`.
- PromptLine.Prompt.ProcessKey: follows the corrected `Editor.ProcessKey`.
- PromptLine.Prompt.HandleKey: follows the corrected `Editor.KeyStep`.
- PromptLine.Prompt.ReadNonBlocking: follows the corrected `Editor.ReadStep`.
- Menus.Menu.constructor: the source's default configuration is the empty dictionary `{}`, which has no "id". Before `set_config`, `action_reset` (menu.py:110-112) and `init_path` (through `_get_item_by_path`, menu.py:48) therefore raise `KeyError`. The model's default root has the id "", so both carry on.
- Menus.Menu.ActionReset: before `set_config` it resets to the default root with id "", where the source raises `KeyError` at menu.py:112.
- Menus.Menu.InitPath: before `set_config` it compares a non-empty path against the id "", where the source's `_get_item_by_path` raises `KeyError` at menu.py:48.
- `Validator.Validate`: the assertion that the rules are a dictionary is not modelled. A `RuleSet` is always one.
- `Cursor.CursorType` and the colour functions take the source's assertions as `requires`: a shape from 0 to 6, and colours from 0 to 15.

## Findings

| source | as written | input that shows it | evidently intended | confidence | as-written member | corrected member |
|---|---|---|---|---|---|---|
| peterbay_prompt/prompt.py:89-107 | `_remove_chars` passes the absolute count to `_set_copy_text`, so consecutive backward kills append to the copy buffer instead of prepending | "foo bar" with the cursor at the end, then CTRL_W twice: the copy buffer holds "barfoo " and CTRL_Y inserts that | consecutive backward kills collect the text in line order, "foo bar", so a yank restores the line | not executed | Editor.CopyOrderAsWritten | Editor.CopyOrderCorrected |
| peterbay_prompt/history.py:27-32 | `history_set_size` truncates the entries without adjusting the browse index | entries ["a","b","c"] with the index at 3, resized to 1: the index stays 3 with one entry, and the next PREV reads an entry that does not exist (`IndexError`) | the index is brought back into range, so browsing stays valid after a resize | not executed | History.ResizeBreaksIndex | History.ResizeKeepsValid |
