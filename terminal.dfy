/** `Terminal`: a command shell on top of the prompt. A finished line is
    tokenized, its first word is replaced by an alias's command (at most five
    times), and the internal commands `alias`, `unalias`, `help` and `free`
    are answered here; anything else is handed back as tokens. */
module Shell {
  import opened Common
  import opened Dict
  import opened Serial
  import opened Input
  import opened Tokenizing
  import Editor
  import Autocomplete
  import PromptLine
  import Aliases

  /** The names the terminal always offers for completion and in `help`. */
  const InternalNames: seq<string> := ["alias", "clear", "unalias", "help", "history"]

  /** How many times the first word of a line may be replaced by an alias. */
  const MaxAliasDepth: nat := 5

  // ---------------------------------------------------------------------
  // The sorted command list

  /** Python's `a <= b` on strings: code point by code point, a prefix first. */
  predicate NoLater(a: string, b: string)
    decreases |a|
  {
    a == [] || (b != [] && (a[0] < b[0] || (a[0] == b[0] && NoLater(a[1..], b[1..]))))
  }

  lemma {:induction false} NoLaterTotal(a: string, b: string)
    ensures NoLater(a, b) || NoLater(b, a)
    decreases |a|
  {
    if a != [] && b != [] && a[0] == b[0] {
      NoLaterTotal(a[1..], b[1..]);
    }
  }

  lemma {:induction false} NoLaterAntisymmetric(a: string, b: string)
    requires NoLater(a, b) && NoLater(b, a)
    ensures a == b
    decreases |a|
  {
    if a != [] {
      NoLaterAntisymmetric(a[1..], b[1..]);
      assert a == [a[0]] + a[1..] && b == [b[0]] + b[1..];
    }
  }

  predicate Sorted(s: seq<string>) {
    forall i, j :: 0 <= i < j < |s| ==> NoLater(s[i], s[j])
  }

  /** One insertion into a sorted list: before the first element it does not
      come after. */
  function Insert(x: string, s: seq<string>): (r: seq<string>)
    ensures multiset(r) == multiset(s) + multiset{x}
    decreases |s|
  {
    if s == [] then [x]
    else
      assert s == [s[0]] + s[1..];
      if NoLater(x, s[0]) then [x] + s else [s[0]] + Insert(x, s[1..])
  }

  /** Putting in front an element that comes after none of a sorted list. */
  lemma ConsSorted(h: string, s: seq<string>)
    requires Sorted(s) && forall j :: 0 <= j < |s| ==> NoLater(h, s[j])
    ensures Sorted([h] + s)
  {
    var r := [h] + s;
    forall i, j | 0 <= i < j < |r| ensures NoLater(r[i], r[j]) {
      if i > 0 {
        assert r[i] == s[i - 1] && r[j] == s[j - 1];
      }
    }
  }

  lemma {:induction false} InsertSorted(x: string, s: seq<string>)
    requires Sorted(s)
    ensures Sorted(Insert(x, s))
    decreases |s|
  {
    if s == [] {
    } else if NoLater(x, s[0]) {
      forall j | 0 <= j < |s| ensures NoLater(x, s[j]) {
        if 0 < j {
          NoLaterTransitive(x, s[0], s[j]);
        }
      }
      ConsSorted(x, s);
    } else {
      var rest := Insert(x, s[1..]);
      assert Sorted(s[1..]);
      InsertSorted(x, s[1..]);
      NoLaterTotal(x, s[0]);
      assert s == [s[0]] + s[1..];
      forall j | 0 <= j < |rest| ensures NoLater(s[0], rest[j]) {
        assert rest[j] in multiset(rest);
        if rest[j] != x {
          assert rest[j] in multiset(s[1..]);
          var k :| 0 <= k < |s[1..]| && s[1..][k] == rest[j];
          assert s[k + 1] == rest[j];
        }
      }
      ConsSorted(s[0], rest);
    }
  }

  lemma {:induction false} NoLaterTransitive(a: string, b: string, c: string)
    requires NoLater(a, b) && NoLater(b, c)
    ensures NoLater(a, c)
    decreases |a|
  {
    if a != [] && b != [] && c != [] && a[0] == b[0] == c[0] {
      NoLaterTransitive(a[1..], b[1..], c[1..]);
    }
  }

  /** `list.sort()` on strings, as the sorted permutation of the list. */
  function Sort(s: seq<string>): (r: seq<string>)
    ensures Sorted(r) && multiset(r) == multiset(s)
    decreases |s|
  {
    if s == [] then []
    else
      assert s == [s[0]] + s[1..];
      InsertSorted(s[0], Sort(s[1..]));
      Insert(s[0], Sort(s[1..]))
  }

  /** `_get_commands_list()`: the internal names and the registered commands. */
  function CommandsList(commands: seq<string>): seq<string> {
    Sort(InternalNames + commands)
  }

  lemma MultisetOfTail(a: seq<string>)
    requires a != []
    ensures multiset(a[1..]) == multiset(a) - multiset{a[0]}
  {
    assert a == [a[0]] + a[1..];
  }

  /** A sorted list is determined by its elements. */
  lemma {:induction false} SortedUnique(a: seq<string>, b: seq<string>)
    requires Sorted(a) && Sorted(b) && multiset(a) == multiset(b)
    ensures a == b
    decreases |a|
  {
    if a != [] {
      assert a[0] in multiset(b) && b[0] in multiset(a);
      var i :| 0 <= i < |a| && a[i] == b[0];
      var j :| 0 <= j < |b| && b[j] == a[0];
      assert NoLater(a[0], a[i]) by {
        if i == 0 {
          NoLaterTotal(a[0], a[0]);
        }
      }
      assert NoLater(b[0], b[j]) by {
        if j == 0 {
          NoLaterTotal(b[0], b[0]);
        }
      }
      NoLaterAntisymmetric(a[0], b[0]);
      MultisetOfTail(a);
      MultisetOfTail(b);
      SortedUnique(a[1..], b[1..]);
    } else {
      assert |multiset(b)| == 0;
    }
  }

  /** The list shows every internal name and registered command, in order,
      with nothing else, and the order the commands were registered in does
      not matter. */
  lemma CommandsListContents(commands: seq<string>, other: seq<string>, x: string)
    requires multiset(other) == multiset(commands)
    ensures Sorted(CommandsList(commands))
    ensures x in CommandsList(commands) <==> x in InternalNames || x in commands
    ensures CommandsList(other) == CommandsList(commands)
  {
    var r := CommandsList(commands);
    assert x in r <==> x in multiset(r);
    assert x in InternalNames + commands <==> x in multiset(InternalNames + commands);
    SortedUnique(CommandsList(other), r);
  }

  // ---------------------------------------------------------------------
  // Parsing a line, with alias expansion

  /** The first token's content when it is a non-empty "text" token. */
  function HeadCommand(ts: seq<Token>): (r: Option<string>)
    ensures r.Some? <==> |ts| > 0 && ts[0].TextToken? && ts[0].content != ""
    ensures r.Some? ==> r.value == ts[0].content
  {
    if |ts| > 0 && ts[0].TextToken? && ts[0].content != "" then Some(ts[0].content) else None
  }

  /** The line `_parse_buffer` parses next: the alias's command, a space and
      the rest of the line, when the first word names an alias. */
  function NextLine(delims: seq<string>, aliases: Table<string>, buffer: string): (r: Option<string>)
    ensures var o := Tokenized(delims, TrimLeft(buffer), None, true);
            r.Some? <==> o.Tokens? && HeadCommand(o.tokens).Some? && HeadCommand(o.tokens).value in Keys(aliases)
  {
    var o := Tokenized(delims, TrimLeft(buffer), None, true);
    if o.Tokens? && HeadCommand(o.tokens).Some? then
      match Find(aliases, HeadCommand(o.tokens).value)
      case Some(expansion) => Some(expansion + " " + ToString(o.tokens[1..]))
      case None => None
    else None
  }

  /** `_parse_buffer(buffer, level)`: the tokens of the line, key-value pairs
      on; when the first word names an alias and the depth allows, the line
      is parsed again with the alias's command in its place. */
  function BufferTokens(delims: seq<string>, aliases: Table<string>, buffer: string, level: nat): Outcome
    decreases if level < MaxAliasDepth then MaxAliasDepth - level else 0
  {
    var next := NextLine(delims, aliases, buffer);
    if level < MaxAliasDepth && next.Some? then BufferTokens(delims, aliases, next.value, level + 1)
    else Tokenized(delims, TrimLeft(buffer), None, true)
  }

  /** How many alias expansions `_parse_buffer` performs. */
  function ExpansionCount(delims: seq<string>, aliases: Table<string>, buffer: string, level: nat): nat
    decreases if level < MaxAliasDepth then MaxAliasDepth - level else 0
  {
    var next := NextLine(delims, aliases, buffer);
    if level < MaxAliasDepth && next.Some? then 1 + ExpansionCount(delims, aliases, next.value, level + 1) else 0
  }

  /** Expansion stops after at most five aliases; when the result still starts
      with an alias, the depth limit is what stopped it; and a line whose first
      word names no alias is just tokenized. */
  lemma {:induction false} ExpansionBounded(delims: seq<string>, aliases: Table<string>, buffer: string, level: nat)
    requires level <= MaxAliasDepth
    ensures level + ExpansionCount(delims, aliases, buffer, level) <= MaxAliasDepth
    ensures var r := BufferTokens(delims, aliases, buffer, level);
            r.Tokens? && HeadCommand(r.tokens).Some? && HeadCommand(r.tokens).value in Keys(aliases)
            ==> level + ExpansionCount(delims, aliases, buffer, level) == MaxAliasDepth
    ensures ExpansionCount(delims, aliases, buffer, level) == 0
            ==> BufferTokens(delims, aliases, buffer, level) == Tokenized(delims, TrimLeft(buffer), None, true)
    decreases MaxAliasDepth - level
  {
    var next := NextLine(delims, aliases, buffer);
    if level < MaxAliasDepth && next.Some? {
      ExpansionBounded(delims, aliases, next.value, level + 1);
    }
  }

  /** Without aliases a line is tokenized once, after its leading blanks. */
  lemma NoAliasesNoExpansion(delims: seq<string>, buffer: string, level: nat)
    requires level <= MaxAliasDepth
    ensures BufferTokens(delims, [], buffer, level) == Tokenized(delims, TrimLeft(buffer), None, true)
    ensures ExpansionCount(delims, [], buffer, level) == 0
  {
  }

  /** When the line tokenizes without loss and starts with a bare word naming
      an alias, the rest of the line is passed on verbatim after the alias's
      command and a space. */
  lemma AliasKeepsArguments(delims: seq<string>, aliases: Table<string>, buffer: string, level: nat,
                            command: string, expansion: string)
    requires level < MaxAliasDepth && command != ""
    requires ScanLossless(delims, TrimLeft(buffer), 0, 0, None, true)
    requires Find(aliases, command) == Some(expansion)
    requires var o := Tokenized(delims, TrimLeft(buffer), None, true);
             o.Tokens? && |o.tokens| > 0 && o.tokens[0] == TextToken(command, None)
    ensures StartsWith(TrimLeft(buffer), command)
    ensures BufferTokens(delims, aliases, buffer, level)
            == BufferTokens(delims, aliases, expansion + " " + TrimLeft(buffer)[|command|..], level + 1)
  {
    var t := TrimLeft(buffer);
    var ts := Tokenized(delims, t, None, true).tokens;
    RoundTrip(delims, t, None, true);
    assert ts == [ts[0]] + ts[1..];
    assert ToString(ts) == command + ToString(ts[1..]);
    assert t[|command|..] == ToString(ts[1..]);
  }

  // ---------------------------------------------------------------------
  // The internal commands

  /** `write_line(text)`. */
  function Line(text: string): string {
    text + "\r\n"
  }

  /** The `alias` listing after its heading: one line per alias, in order. */
  function AliasListing(aliases: Table<string>): (r: seq<string>)
    ensures |r| == |aliases|
    ensures forall i :: 0 <= i < |r| ==> r[i] == Line("  " + aliases[i].0 + " = " + aliases[i].1)
    decreases |aliases|
  {
    if aliases == [] then []
    else AliasListing(aliases[..|aliases| - 1]) + [Line("  " + aliases[|aliases| - 1].0 + " = " + aliases[|aliases| - 1].1)]
  }

  /** The `help` output for the given sorted command list. */
  function HelpText(help: string, list: seq<string>): seq<string> {
    (if help != "" then [Line(help)] else []) + [Line("Commands: "), Line("  " + Join(list, ", "))]
  }

  /** The `free` output for the given allocated and free memory figures. */
  function MemoryText(used: nat, available: nat): seq<string> {
    [Line(" Allocated memory : " + NatToString(used)), Line(" Free memory      : " + NatToString(available))]
  }

  /** What `_process_internal_commands` did: whether the tokens were consumed,
      the alias table afterwards and what was written. */
  datatype Handling = Handling(consumed: bool, aliases: Table<string>, out: seq<string>)

  /** `_process_internal_commands(tokens)`, with the memory figures of `free`
      given. */
  function Internal(aliases: Table<string>, commands: seq<string>, help: string, tokens: seq<Token>,
                    memory: (nat, nat)): (r: Handling)
    ensures var c := ToDict(tokens).command;
            r.consumed <==> c in {Some("alias"), Some("unalias"), Some("help"), Some("free")}
    ensures !r.consumed ==> r.aliases == aliases && r.out == []
    ensures r.aliases != aliases ==> ToDict(tokens).command in {Some("alias"), Some("unalias")}
  {
    Dispatch(aliases, commands, help, ToDict(tokens), memory)
  }

  /** The branches of `_process_internal_commands` on the parsed line. */
  function Dispatch(aliases: Table<string>, commands: seq<string>, help: string, d: Parsed,
                    memory: (nat, nat)): Handling
  {
    if d.command == Some("alias") then
      if d.keyValues == [] && d.positional == [] && d.options == [] then
        Handling(true, aliases, [Line("Aliases:")] + AliasListing(aliases))
      else if d.keyValues != [] && d.positional == [] && d.options == [] then
        Handling(true, Put(aliases, d.keyValues[0].0, d.keyValues[0].1), [])
      else
        Handling(true, aliases, [Line("Invalid alias arguments")])
    else if d.command == Some("unalias") then
      if d.positional != [] then Handling(true, Dict.Remove(aliases, d.positional[0]), [])
      else Handling(true, aliases, [Line("Invalid unalias arguments")])
    else if d.command == Some("help") then
      Handling(true, aliases, HelpText(help, CommandsList(commands)))
    else if d.command == Some("free") then
      Handling(true, aliases, MemoryText(memory.0, memory.1))
    else
      Handling(false, aliases, [])
  }

  /** `alias name=command` defines the alias: parsing a line that starts with
      the name then continues with the command, and no other alias changes. */
  lemma AliasDefinitionExpands(delims: seq<string>, aliases: Table<string>, commands: seq<string>, help: string,
                               tokens: seq<Token>, memory: (nat, nat), buffer: string, level: nat)
    requires var d := ToDict(tokens);
             d.command == Some("alias") && d.keyValues != [] && d.positional == [] && d.options == []
    requires level < MaxAliasDepth
    requires var o := Tokenized(delims, TrimLeft(buffer), None, true);
             o.Tokens? && HeadCommand(o.tokens) == Some(ToDict(tokens).keyValues[0].0)
    ensures var d := ToDict(tokens);
            var r := Internal(aliases, commands, help, tokens, memory);
            var o := Tokenized(delims, TrimLeft(buffer), None, true);
            r.consumed && r.out == []
            && BufferTokens(delims, r.aliases, buffer, level)
               == BufferTokens(delims, r.aliases, d.keyValues[0].1 + " " + ToString(o.tokens[1..]), level + 1)
            && forall other :: other != d.keyValues[0].0 ==> Find(r.aliases, other) == Find(aliases, other)
  {
    var d := ToDict(tokens);
    FindPut(aliases, d.keyValues[0].0, d.keyValues[0].1, d.keyValues[0].0);
    forall other | other != d.keyValues[0].0
      ensures Find(Put(aliases, d.keyValues[0].0, d.keyValues[0].1), other) == Find(aliases, other)
    {
      FindPut(aliases, d.keyValues[0].0, d.keyValues[0].1, other);
    }
  }

  /** `unalias name` drops the alias: a line starting with the name is then
      tokenized as it stands. */
  lemma UnaliasStopsExpansion(delims: seq<string>, aliases: Table<string>, commands: seq<string>, help: string,
                              tokens: seq<Token>, memory: (nat, nat), buffer: string, level: nat)
    requires var d := ToDict(tokens);
             d.command == Some("unalias") && d.positional != []
    requires var o := Tokenized(delims, TrimLeft(buffer), None, true);
             o.Tokens? && HeadCommand(o.tokens) == Some(ToDict(tokens).positional[0])
    ensures var r := Internal(aliases, commands, help, tokens, memory);
            r.consumed && r.out == []
            && BufferTokens(delims, r.aliases, buffer, level) == Tokenized(delims, TrimLeft(buffer), None, true)
  {
    var d := ToDict(tokens);
    FindRemove(aliases, d.positional[0], d.positional[0]);
  }

  /** `help` lists every command, sorted, after the optional help message. */
  lemma HelpListsCommands(aliases: Table<string>, commands: seq<string>, help: string, tokens: seq<Token>,
                          memory: (nat, nat))
    requires ToDict(tokens).command == Some("help")
    ensures var r := Internal(aliases, commands, help, tokens, memory);
            var list := CommandsList(commands);
            r.consumed && r.aliases == aliases && Sorted(list)
            && (forall x :: x in list <==> x in InternalNames || x in commands)
            && |r.out| == (if help == "" then 2 else 3)
            && r.out[|r.out| - 1] == Line("  " + Join(list, ", "))
  {
    forall x ensures x in CommandsList(commands) <==> x in InternalNames || x in commands {
      CommandsListContents(commands, commands, x);
    }
  }

  // ---------------------------------------------------------------------
  // The terminal object

  /** The prompt with the command list given to its completer, as
      `read_non_blocking` does first. */
  function Offered(s: Editor.LineState, commands: seq<string>): (r: Editor.LineState)
    ensures Editor.Valid(s) ==> Editor.Valid(r)
    ensures r.comp.enabled ==> r.comp.candidates == CommandsList(commands)
  {
    s.(comp := Autocomplete.WithCandidates(s.comp, CommandsList(commands)))
  }

  /** One call of `read_non_blocking`: the prompt's state, the alias table,
      what was written and the result; `fails` when tokenizing the line
      raises or never ends. */
  datatype Turn = Turn(st: Editor.LineState, aliases: Table<string>, out: seq<string>,
                       result: Option<seq<Token>>, fails: bool)

  function TerminalStep(s: Editor.LineState, key: Option<Key>, promptString: string, delims: seq<string>,
                        aliases: Table<string>, commands: seq<string>, help: string, memory: (nat, nat)): (r: Turn)
    requires Editor.Valid(s)
    requires s.commandsEnabled || key.None? || key.value.kind == CharKey || key.value.name != "CTRL_M"
    ensures Editor.Valid(r.st)
    ensures r.result.Some? ==> !r.fails && key.Some? && key.value.name == "CTRL_M"
    ensures r.aliases != aliases ==> r.result.None?
  {
    AfterRead(Editor.ReadStep(Offered(s, commands), key, promptString), delims, aliases, commands, help, memory)
  }

  /** What `read_non_blocking` does once the prompt has had its key: a
      finished line is tokenized and, when it is an internal command,
      answered. */
  function AfterRead(e: Editor.Outcome, delims: seq<string>, aliases: Table<string>, commands: seq<string>,
                     help: string, memory: (nat, nat)): (r: Turn)
    ensures r.st == e.st && |e.out| <= |r.out| && r.out[..|e.out|] == e.out
    ensures r.result.Some? ==> !r.fails && e.line.Some?
    ensures e.line.None? ==> r == Turn(e.st, aliases, e.out, None, false)
    ensures r.aliases != aliases ==> r.result.None?
  {
    if e.line.None? then Turn(e.st, aliases, e.out, None, false)
    else
      var o := BufferTokens(delims, aliases, e.line.value, 0);
      if !o.Tokens? then Turn(e.st, aliases, e.out, None, true)
      else
        var h := Internal(aliases, commands, help, o.tokens, memory);
        Turn(e.st, h.aliases, e.out + h.out, if h.consumed then None else Some(o.tokens), false)
  }

  class Terminal {
    const io: Console
    const prompt: PromptLine.Prompt
    const tokenizer: Tokenizer
    const alias: Aliases.AliasTable
    /** `_commands`; None while it is still the class default `{}`. */
    var commands: Option<seq<string>>
    var helpMessage: string

    predicate Valid()
      reads this, prompt, prompt.history, prompt.completer, alias
    {
      prompt.io == io && prompt.Valid() && alias.Valid()
    }

    constructor (serial: Console)
      ensures io == serial && Valid()
      ensures commands == None && helpMessage == ""
      ensures prompt.State() == Editor.InitialLine() && alias.aliases == [] && tokenizer.delimiters == ["="]
      ensures fresh(prompt) && fresh(prompt.history) && fresh(prompt.completer) && fresh(alias) && fresh(tokenizer)
    {
      io := serial;
      prompt := new PromptLine.Prompt(serial);
      tokenizer := new Tokenizer();
      alias := new Aliases.AliasTable();
      commands := None;
      helpMessage := "";
    }

    /** `set_commands(commands)`. */
    method SetCommands(list: seq<string>)
      modifies this
      ensures commands == Some(list) && helpMessage == old(helpMessage)
    {
      commands := Some(list);
    }

    /** `_get_commands_list()`; with `_commands` still `{}` the source fails. */
    method GetCommandsList() returns (list: seq<string>)
      requires commands.Some?
      ensures list == CommandsList(commands.value)
    {
      list := Sort(InternalNames + commands.value);
    }

    /** The loop of `alias` without arguments. */
    method WriteAliasListing(table: Table<string>)
      modifies io
      ensures io.written == old(io.written) + AliasListing(table) && io.pending == old(io.pending)
    {
      var i := 0;
      while i < |table|
        invariant i <= |table|
        invariant io.written == old(io.written) + AliasListing(table[..i]) && io.pending == old(io.pending)
      {
        assert table[..i + 1][..i] == table[..i];
        io.WriteLine("  " + table[i].0 + " = " + table[i].1);
        i := i + 1;
      }
      assert table[..i] == table;
    }

    method WriteHelp(list: seq<string>)
      modifies io
      ensures io.written == old(io.written) + HelpText(helpMessage, list) && io.pending == old(io.pending)
    {
      if helpMessage != "" {
        io.WriteLine(helpMessage);
      }
      io.WriteLine("Commands: ");
      io.WriteLine("  " + Join(list, ", "));
    }

    /** `_process_internal_commands(tokens)`. */
    method ProcessInternalCommands(tokens: seq<Token>, memory: (nat, nat)) returns (processed: bool)
      requires commands.Some? && alias.Valid()
      modifies io, alias
      ensures var h := Internal(old(alias.aliases), commands.value, helpMessage, tokens, memory);
              processed == h.consumed && alias.aliases == h.aliases && alias.Valid()
              && io.written == old(io.written) + h.out && io.pending == old(io.pending)
    {
      var d := ToDict(tokens);
      processed := RunCommand(d, memory);
    }

    /** The branches of `_process_internal_commands` on the parsed line. */
    method RunCommand(d: Parsed, memory: (nat, nat)) returns (processed: bool)
      requires commands.Some? && alias.Valid()
      modifies io, alias
      ensures var h := Dispatch(old(alias.aliases), commands.value, helpMessage, d, memory);
              processed == h.consumed && alias.aliases == h.aliases && alias.Valid()
              && io.written == old(io.written) + h.out && io.pending == old(io.pending)
    {
      if d.command == Some("alias") {
        if d.keyValues == [] && d.positional == [] && d.options == [] {
          io.WriteLine("Aliases:");
          var table := alias.List();
          WriteAliasListing(table);
        } else if d.keyValues != [] && d.positional == [] && d.options == [] {
          alias.Add(d.keyValues[0].0, d.keyValues[0].1);
        } else {
          io.WriteLine("Invalid alias arguments");
        }
        return true;
      } else if d.command == Some("unalias") {
        if d.positional != [] {
          alias.Remove(d.positional[0]);
        } else {
          io.WriteLine("Invalid unalias arguments");
        }
        return true;
      } else if d.command == Some("help") {
        var list := GetCommandsList();
        WriteHelp(list);
        return true;
      } else if d.command == Some("free") {
        io.WriteLine(" Allocated memory : " + NatToString(memory.0));
        io.WriteLine(" Free memory      : " + NatToString(memory.1));
        return true;
      }
      return false;
    }

    /** `_parse_buffer(buffer, level)`; a line whose tokenizing fails or never
        ends is excluded. */
    method ParseBuffer(buffer: string, level: nat) returns (tokens: seq<Token>)
      requires BufferTokens(tokenizer.delimiters, alias.aliases, buffer, level).Tokens?
      ensures tokens == BufferTokens(tokenizer.delimiters, alias.aliases, buffer, level).tokens
      decreases if level < MaxAliasDepth then MaxAliasDepth - level else 0
    {
      tokens := tokenizer.Tokenize(TrimLeft(buffer), None, true);
      var command := HeadCommand(tokens);
      if command.Some? && level < MaxAliasDepth {
        var rest := ToString(tokens[1..]);
        var aliases := alias.List();
        var expansion := Find(aliases, command.value);
        if expansion.Some? {
          tokens := ParseBuffer(expansion.value + " " + rest, level + 1);
        }
      }
    }

    /** `autocomplete_set(_get_commands_list())` on the prompt. */
    method OfferCommands()
      requires Valid() && commands.Some?
      modifies prompt.completer
      ensures Valid() && prompt.State() == Offered(old(prompt.State()), commands.value)
      ensures io.pending == old(io.pending) && io.written == old(io.written)
    {
      var list := GetCommandsList();
      prompt.completer.Set(list);
    }

    /** The prompt part of `read_non_blocking`: the commands are offered for
        completion and at most one key is handled. */
    method ReadLine(promptString: string) returns (entry: Option<string>, ghost e: Editor.Outcome)
      requires Valid() && commands.Some? && ReadKeySpec(io.pending) != Fault
      requires var k := ReadKeySpec(io.pending).key;
               prompt.commandsEnabled || k.None? || k.value.kind == CharKey || k.value.name != "CTRL_M"
      modifies io, prompt, prompt.history, prompt.completer
      ensures Valid() && e == Editor.ReadStep(Offered(old(prompt.State()), commands.value), ReadKeySpec(old(io.pending)).key, promptString)
      ensures io.pending == ReadKeySpec(old(io.pending)).rest && prompt.State() == e.st && entry == e.line
              && io.written == old(io.written) + e.out
    {
      e := Editor.ReadStep(Offered(prompt.State(), commands.value), ReadKeySpec(io.pending).key, promptString);
      OfferCommands();
      entry := prompt.ReadNonBlocking(promptString);
    }

    /** What `read_non_blocking` does with the prompt's answer `entry`, once
        the prompt has written `e.out` after `w`. */
    method HandleEntry(entry: Option<string>, memory: (nat, nat), ghost e: Editor.Outcome, ghost w: seq<string>)
      returns (result: Option<seq<Token>>)
      requires commands.Some? && alias.Valid() && entry == e.line && io.written == w + e.out
      requires !AfterRead(e, tokenizer.delimiters, alias.aliases, commands.value, helpMessage, memory).fails
      modifies io, alias
      ensures var t := AfterRead(e, tokenizer.delimiters, old(alias.aliases), commands.value, helpMessage, memory);
              alias.aliases == t.aliases && alias.Valid() && io.written == w + t.out
              && io.pending == old(io.pending) && result == t.result
    {
      if entry.None? {
        return None;
      }
      ghost var ts := BufferTokens(tokenizer.delimiters, alias.aliases, entry.value, 0).tokens;
      ghost var h := Internal(alias.aliases, commands.value, helpMessage, ts, memory);
      var tokens := ParseBuffer(entry.value, 0);
      var processed := ProcessInternalCommands(tokens, memory);
      result := if processed then None else Some(tokens);
      AppendAssoc(w, e.out, h.out);
    }

    /** `read_non_blocking(prompt_string)`: a finished line is parsed; internal
        commands are answered and give None, other lines give their tokens. */
    method ReadNonBlocking(promptString: string, memory: (nat, nat)) returns (result: Option<seq<Token>>)
      requires Valid() && commands.Some? && ReadKeySpec(io.pending) != Fault
      requires var k := ReadKeySpec(io.pending).key;
               prompt.commandsEnabled || k.None? || k.value.kind == CharKey || k.value.name != "CTRL_M"
      requires !TerminalStep(prompt.State(), ReadKeySpec(io.pending).key, promptString, tokenizer.delimiters,
                             alias.aliases, commands.value, helpMessage, memory).fails
      modifies io, prompt, prompt.history, prompt.completer, alias
      ensures Valid()
      ensures var d := ReadKeySpec(old(io.pending));
              var t := TerminalStep(old(prompt.State()), d.key, promptString, tokenizer.delimiters,
                                    old(alias.aliases), commands.value, helpMessage, memory);
              io.pending == d.rest && prompt.State() == t.st && alias.aliases == t.aliases
              && io.written == old(io.written) + t.out && result == t.result
    {
      ghost var w := io.written;
      ghost var s0 := prompt.State();
      ghost var a0 := alias.aliases;
      ghost var key := ReadKeySpec(io.pending).key;
      var entry, e := ReadLine(promptString);
      assert TerminalStep(s0, key, promptString, tokenizer.delimiters, a0, commands.value, helpMessage, memory)
             == AfterRead(e, tokenizer.delimiters, a0, commands.value, helpMessage, memory);
      result := HandleEntry(entry, memory, e, w);
    }

    /** `keyboard_interrupt()`: delegated to the prompt. */
    method KeyboardInterrupt()
      requires prompt.io == io
      modifies prompt, io
      ensures var e := Editor.Interrupted(old(prompt.State()));
              prompt.State() == e.st && io.written == old(io.written) + e.out && io.pending == old(io.pending)
    {
      prompt.KeyboardInterrupt();
    }
  }
}
