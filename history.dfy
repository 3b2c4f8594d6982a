/** Command history (`History`): a bounded list of submitted lines, a browse
    index that the arrow keys move, a stashed draft, and `!` recall. */
module History {
  import opened Common

  /** `HISTORY_PREV` and `HISTORY_NEXT`. */
  datatype Action = Prev | Next

  /** The history fields: the size bound, the entries (oldest first), the
      browse index (-1 before anything is stored, the entry count at the fresh
      position), the enabled flag and the draft stashed at the fresh position. */
  datatype HistState = HistState(size: nat, entries: seq<string>, index: int, enabled: bool, stash: string)

  /** The class defaults: 30 entries, empty, index -1, enabled. */
  function InitialHistory(): HistState {
    HistState(30, [], -1, true, "")
  }

  /** The browse index points at an entry or at the fresh position. */
  predicate Valid(h: HistState) {
    -1 <= h.index <= |h.entries|
  }

  /** No entry repeats the one just before it. */
  predicate NoAdjacentDuplicates(entries: seq<string>) {
    forall i :: 0 < i < |entries| ==> entries[i - 1] != entries[i]
  }

  // ---------------------------------------------------------------------------
  // history_append

  /** `history_append(entry)`. */
  function Appended(h: HistState, entry: string): (r: HistState)
    ensures Valid(h) ==> Valid(r)
    ensures r.size == h.size && r.enabled == h.enabled && r.stash == h.stash
  {
    if Strip(entry) == [] || !h.enabled || h.size == 0 then h
    else
      var n := |h.entries|;
      if n == 0 || h.entries[n - 1] != entry then
        var grown := h.entries + [entry];
        var kept := if n + 1 > h.size then grown[1..] else grown;
        h.(entries := kept, index := |kept|)
      else h.(index := n)
  }

  /** A whitespace-only entry, a disabled history or size 0 change nothing,
      not even the browse index. */
  lemma AppendIgnored(h: HistState, entry: string)
    requires Strip(entry) == [] || !h.enabled || h.size == 0
    ensures Appended(h, entry) == h
  {
  }

  /** An accepted entry ends the list and the browse index moves to the fresh
      position. An entry equal to the newest one leaves the list as it was;
      any other is appended, and the oldest entry is dropped exactly when the
      list would outgrow the size. */
  lemma AppendStores(h: HistState, entry: string)
    requires Strip(entry) != [] && h.enabled && h.size > 0
    ensures var r := Appended(h, entry);
            r.entries != [] && r.entries[|r.entries| - 1] == entry
            && r.index == |r.entries| && r.size == h.size && r.enabled == h.enabled
    ensures var r := Appended(h, entry);
            h.entries != [] && h.entries[|h.entries| - 1] == entry ==> r.entries == h.entries
    ensures var r := Appended(h, entry);
            (h.entries == [] || h.entries[|h.entries| - 1] != entry) ==>
              (|h.entries| + 1 <= h.size ==> r.entries == h.entries + [entry])
              && (|h.entries| + 1 > h.size ==> r.entries == (h.entries + [entry])[1..])
  {
  }

  /** Appending never creates two equal neighbours. */
  lemma AppendNoAdjacentDuplicates(h: HistState, entry: string)
    requires NoAdjacentDuplicates(h.entries)
    ensures NoAdjacentDuplicates(Appended(h, entry).entries)
  {
    var r := Appended(h, entry);
    var n := |h.entries|;
    if Strip(entry) != [] && h.enabled && h.size > 0 && (n == 0 || h.entries[n - 1] != entry) {
      var grown := h.entries + [entry];
      assert NoAdjacentDuplicates(grown);
      if n + 1 > h.size {
        assert forall i :: 0 < i < |grown| - 1 ==> grown[1..][i - 1] == grown[i];
      }
    }
  }

  /** A history within its size bound stays within it. */
  lemma AppendBounded(h: HistState, entry: string)
    requires |h.entries| <= h.size
    ensures |Appended(h, entry).entries| <= h.size
  {
  }

  // ---------------------------------------------------------------------------
  // history_action

  /** `history_action(action, entry)`: the new state and the text to show. */
  function Browsed(h: HistState, action: Action, entry: string): (r: (HistState, string))
    requires Valid(h)
    ensures Valid(r.0)
    ensures r.0.entries == h.entries && r.0.size == h.size && r.0.enabled == h.enabled
  {
    var n := |h.entries|;
    if !h.enabled || n == 0 then (h, entry)
    else
      var stash := if h.index == n then entry else h.stash;
      var g := h.(stash := stash);
      if action == Prev && h.index > 0 then (g.(index := h.index - 1), h.entries[h.index - 1])
      else if action == Next && h.index < n - 1 then (g.(index := h.index + 1), h.entries[h.index + 1])
      else if action == Next && h.index == n - 1 then (g.(index := n), stash)
      else (g, entry)
  }

  /** An empty or disabled history returns the text and keeps its index. */
  lemma BrowseInert(h: HistState, action: Action, entry: string)
    requires Valid(h) && (!h.enabled || h.entries == [])
    ensures Browsed(h, action, entry) == (h, entry)
  {
  }

  /** PREV steps back to the previous entry and shows it; at the oldest entry it
      shows the text given and stays put. */
  lemma PrevSteps(h: HistState, entry: string)
    requires Valid(h) && h.enabled && h.entries != []
    ensures h.index > 0 ==>
              Browsed(h, Prev, entry).0.index == h.index - 1 && Browsed(h, Prev, entry).1 == h.entries[h.index - 1]
    ensures h.index == 0 ==> Browsed(h, Prev, entry).0.index == 0 && Browsed(h, Prev, entry).1 == entry
  {
  }

  /** NEXT from the newest entry returns to the fresh position and shows the
      stashed draft; NEXT at the fresh position changes nothing visible. */
  lemma NextReturnsDraft(h: HistState, entry: string)
    requires Valid(h) && h.enabled && h.entries != []
    ensures h.index == |h.entries| - 1 ==> Browsed(h, Next, entry) == (h.(index := |h.entries|), h.stash)
    ensures h.index == |h.entries| ==> Browsed(h, Next, entry) == (h.(stash := entry), entry)
  {
  }

  /** From the fresh position, PREV then NEXT gives back the draft being typed. */
  lemma PrevNextRestoresDraft(h: HistState, draft: string)
    requires Valid(h) && h.enabled && h.entries != [] && h.index == |h.entries|
    ensures var (h1, shown) := Browsed(h, Prev, draft);
            var (h2, back) := Browsed(h1, Next, shown);
            back == draft && h2.index == |h.entries|
  {
  }

  // ---------------------------------------------------------------------------
  // history_get_entry

  /** The newest entry starting with `prefix`. */
  function NewestWithPrefix(entries: seq<string>, prefix: string): (r: Option<string>)
    ensures r.Some? ==> exists k :: 0 <= k < |entries| && entries[k] == r.value && StartsWith(r.value, prefix)
                                    && forall j :: k < j < |entries| ==> !StartsWith(entries[j], prefix)
    ensures r.None? ==> forall j :: 0 <= j < |entries| ==> !StartsWith(entries[j], prefix)
  {
    if entries == [] then None
    else if StartsWith(entries[|entries| - 1], prefix) then Some(entries[|entries| - 1])
    else NewestWithPrefix(entries[..|entries| - 1], prefix)
  }

  /** Python's `list[k]`: negative positions count from the end; None where the
      source raises IndexError. */
  function PyIndex(entries: seq<string>, k: int): (r: Option<string>)
    ensures r.Some? <==> -|entries| <= k < |entries|
    ensures 0 <= k < |entries| ==> r == Some(entries[k])
    ensures -|entries| <= k < 0 ==> r == Some(entries[|entries| + k])
  {
    if 0 <= k < |entries| then Some(entries[k])
    else if -|entries| <= k < 0 then Some(entries[|entries| + k])
    else None
  }

  /** What the text after `!` selects: a position when it starts with a digit
      or `-` (None when it is not a number or out of range), otherwise the
      newest entry starting with it. */
  function Select(entries: seq<string>, text: string): Option<string>
    requires text != []
  {
    if IsDigit(text[0]) || text[0] == '-' then
      match ParseInt(text)
      case None => None
      case Some(k) => PyIndex(entries, k)
    else NewestWithPrefix(entries, text)
  }

  /** `history_get_entry(command)`: the entry a `!` token recalls, or None.
      `!!` stands for `!-1`. */
  function Recall(entries: seq<string>, command: string): Option<string> {
    if |command| < 2 || entries == [] then None
    else if command[0] != '!' then None
    else if command == "!!" then Select(entries, "-1")
    else Select(entries, command[1..])
  }

  /** A `!` token other than `!!` recalls what its text selects. */
  lemma RecallSelects(entries: seq<string>, text: string)
    requires entries != [] && text != [] && text != "!"
    ensures Recall(entries, "!" + text) == Select(entries, text)
  {
    var c := "!" + text;
    assert c[1..] == text;
    assert "!!"[1..] == "!";
  }

  /** The text `-1` parses as -1. */
  lemma ParseMinusOne(s: string)
    requires |s| == 2 && s[0] == '-' && s[1] == '1'
    ensures ParseInt(s) == Some(-1)
  {
    StripNoSpaceEnds(s);
    var d := s[1..];
    assert d[..0] == [];
    assert AllDigits(d) && DigitsValue(d) == 1;
  }

  /** `!!` recalls the newest entry. */
  lemma RecallLast(entries: seq<string>)
    requires entries != []
    ensures Recall(entries, "!!") == Some(entries[|entries| - 1])
  {
    ParseMinusOne("-1");
    assert Recall(entries, "!!") == Select(entries, "-1");
  }

  /** `!n` recalls entry n counted from the oldest, so `!0` is the oldest; past
      the end it gives None. */
  lemma RecallFromOldest(entries: seq<string>, n: nat)
    requires entries != []
    ensures Recall(entries, "!" + NatToString(n)) == (if n < |entries| then Some(entries[n]) else None)
  {
    var s := NatToString(n);
    RecallSelects(entries, s);
    ParseIntOfNat(n);
  }

  /** `!-n` recalls entry n counted back from the newest; past the oldest it
      gives None. */
  lemma RecallFromNewest(entries: seq<string>, n: nat)
    requires entries != [] && n > 0
    ensures Recall(entries, "!-" + NatToString(n)) == (if n <= |entries| then Some(entries[|entries| - n]) else None)
  {
    var s := "-" + NatToString(n);
    assert "!-" == "!" + "-";
    AppendAssoc("!", "-", NatToString(n));
    RecallSelects(entries, s);
    ParseIntOfNegated(n);
    assert s[0] == '-';
    assert Select(entries, s) == PyIndex(entries, -(n as int));
  }

  /** Any other recall text selects the newest entry starting with it, or None. */
  lemma RecallByPrefix(entries: seq<string>, text: string)
    requires entries != [] && text != [] && !IsDigit(text[0]) && text[0] != '-' && text != "!"
    ensures Recall(entries, "!" + text) == NewestWithPrefix(entries, text)
  {
    RecallSelects(entries, text);
  }

  /** Without a leading `!`, or shorter than two characters, nothing is recalled. */
  lemma RecallNeedsBang(entries: seq<string>, command: string)
    requires |command| < 2 || command[0] != '!'
    ensures Recall(entries, command) == None
  {
  }

  // ---------------------------------------------------------------------------
  // history_set_size, history_set, history_clean

  /** Python's `entries[-size:]`: the last `size` entries, except that `-0` is 0
      and `[0:]` is the whole list. */
  function LastEntries(entries: seq<string>, size: nat): (r: seq<string>)
    ensures size == 0 ==> r == entries
    ensures size > 0 ==> |r| == if size < |entries| then size else |entries|
    ensures r == entries[|entries| - |r|..]
  {
    if size == 0 || size >= |entries| then entries else entries[|entries| - size..]
  }

  /** `history_set_size(size)` as written: the browse index is left where it
      was, even past the end of the shortened list. */
  function ResizedAsWritten(h: HistState, size: nat): (r: HistState)
    ensures r.size == size && r.index == h.index && r.enabled == h.enabled
    ensures |r.entries| <= |h.entries| && r.entries == h.entries[|h.entries| - |r.entries|..]
    ensures size != h.size && size > 0 ==> |r.entries| <= size
    ensures r.entries == Resized(h, size).entries
  {
    var entries := if size != h.size then LastEntries(h.entries, size) else h.entries;
    h.(entries := entries, size := size)
  }

  /** Shrinking a history that is being browsed at the fresh position leaves
      the index past the end: the next PREV would read `entries[2]` of a
      one-entry list. */
  lemma ResizeBreaksIndex()
    ensures var h := HistState(30, ["a", "b", "c"], 3, true, "");
            Valid(h) && !Valid(ResizedAsWritten(h, 1))
  {
    var h := HistState(30, ["a", "b", "c"], 3, true, "");
    assert |ResizedAsWritten(h, 1).entries| == 1;
  }

  /** `history_set_size(size)` with the browse index kept inside the list. */
  function Resized(h: HistState, size: nat): (r: HistState)
    ensures r.size == size && r.enabled == h.enabled
  {
    var entries := if size != h.size then LastEntries(h.entries, size) else h.entries;
    h.(entries := entries, size := size, index := if h.index > |entries| then |entries| else h.index)
  }

  /** Resizing keeps the index valid, keeps the newest entries, and brings a
      non-zero size bound back into force when it changes. */
  lemma ResizeKeepsValid(h: HistState, size: nat)
    requires Valid(h)
    ensures var r := Resized(h, size);
            Valid(r)
            && r.entries == h.entries[|h.entries| - |r.entries|..]
            && (size != h.size && size > 0 ==> |r.entries| <= size)
  {
  }

  /** `history_set(list)`: ignored when the size is 0; no truncation. */
  function WithEntries(h: HistState, entries: seq<string>): (r: HistState)
    ensures Valid(r) || r == h
    ensures h.size != 0 ==> r.entries == entries && r.index == |entries|
    ensures h.size == 0 ==> r == h
  {
    if h.size != 0 then h.(entries := entries, index := |entries|) else h
  }

  /** `history_clean`. */
  function Emptied(h: HistState): (r: HistState)
    ensures Valid(r) && r.entries == [] && r.index == -1
  {
    h.(entries := [], index := -1)
  }

  // ---------------------------------------------------------------------------
  // The History class

  class HistoryLog {
    var size: nat
    var entries: seq<string>
    var index: int
    var enabled: bool
    var stash: string

    function State(): HistState
      reads this
    {
      HistState(size, entries, index, enabled, stash)
    }

    constructor ()
      ensures State() == InitialHistory()
    {
      size := 30;
      entries := [];
      index := -1;
      enabled := true;
      stash := "";
    }

    /** `history_append`. */
    method Append(entry: string)
      modifies this
      ensures State() == Appended(old(State()), entry)
    {
      if |Strip(entry)| == 0 {
        return;
      }
      if !enabled || size == 0 {
        return;
      }
      var n := |entries|;
      if n == 0 || entries[n - 1] != entry {
        entries := entries + [entry];
        if n + 1 > size {
          entries := entries[1..];
        }
      }
      index := |entries|;
    }

    /** `history_action`: the text to show after moving through the history. */
    method Action(action: Action, entry: string) returns (shown: string)
      requires Valid(State())
      modifies this
      ensures (State(), shown) == Browsed(old(State()), action, entry)
    {
      var n := |entries|;
      if !enabled || n == 0 {
        return entry;
      }
      var idx := index;
      shown := entry;
      if idx == n {
        stash := entry;
      }
      if action == Prev && idx > 0 {
        idx := idx - 1;
        shown := entries[idx];
      } else if action == Next {
        var last := n - 1;
        if idx < last {
          idx := idx + 1;
          shown := entries[idx];
        } else if idx == last {
          idx := idx + 1;
          shown := stash;
        }
      }
      index := idx;
    }

    /** `history_get_entry`, scanning from the newest entry for a prefix. */
    method GetEntry(command: string) returns (r: Option<string>)
      ensures r == Recall(entries, command)
    {
      if |command| < 2 || |entries| == 0 {
        return None;
      }
      if command[0] != '!' {
        return None;
      }
      var c := if command == "!!" then "!-1" else command;
      assert c[1..] == if command == "!!" then "-1" else command[1..];
      if IsDigit(c[1]) || c[1] == '-' {
        var k := ParseInt(c[1..]);
        if k.None? {
          return None;
        }
        return PyIndex(entries, k.value);
      }
      var prefix := c[1..];
      var i := |entries|;
      while i > 0
        invariant 0 <= i <= |entries|
        invariant NewestWithPrefix(entries[..i], prefix) == NewestWithPrefix(entries, prefix)
      {
        i := i - 1;
        assert entries[..i + 1][..i] == entries[..i];
        if StartsWith(entries[i], prefix) {
          return Some(entries[i]);
        }
      }
      return None;
    }

    /** `history_set_size`, with the browse index kept inside the list. */
    method SetSize(newSize: nat)
      modifies this
      ensures State() == Resized(old(State()), newSize)
    {
      if newSize != size {
        entries := LastEntries(entries, newSize);
      }
      size := newSize;
      if index > |entries| {
        index := |entries|;
      }
    }

    /** `history_set`. */
    method Set(list: seq<string>)
      modifies this
      ensures State() == WithEntries(old(State()), list)
    {
      if size != 0 {
        entries := list;
        index := |list|;
      }
    }

    /** `history_clean`. */
    method Clean()
      modifies this
      ensures State() == Emptied(old(State()))
    {
      entries := [];
      index := -1;
    }
  }
}
