/** Tab completion (`Autocomplete`): candidates are matched against the text
    the first Tab captured, and repeated Tabs cycle through the matches. */
module Autocomplete {
  import opened Common

  /** The completer's fields: whether it is enabled, the candidate list, the
      captured prefix (None until the first Tab after a clean) and the cycle
      index. */
  datatype CompState = CompState(enabled: bool, candidates: seq<string>, prefix: Option<string>, index: nat)

  /** A fresh completer: enabled, no candidates, nothing captured. */
  function InitialCompletion(): CompState {
    CompState(true, [], None, 0)
  }

  /** The candidates that start with `prefix`, in list order. */
  function Matches(candidates: seq<string>, prefix: string): (m: seq<string>)
    ensures |m| <= |candidates|
    ensures forall i :: 0 <= i < |m| ==> m[i] in candidates && StartsWith(m[i], prefix)
    ensures forall i :: 0 <= i < |candidates| && StartsWith(candidates[i], prefix) ==> candidates[i] in m
  {
    if candidates == [] then []
    else
      var rest := Matches(candidates[1..], prefix);
      if StartsWith(candidates[0], prefix) then [candidates[0]] + rest else rest
  }

  /** Matching keeps list order: the matches of a concatenation are the matches
      of each part, in turn. */
  lemma {:induction false} MatchesConcat(a: seq<string>, b: seq<string>, prefix: string)
    ensures Matches(a + b, prefix) == Matches(a, prefix) + Matches(b, prefix)
  {
    if a != [] {
      assert (a + b)[1..] == a[1..] + b;
      MatchesConcat(a[1..], b, prefix);
    } else {
      assert a + b == b;
    }
  }

  /** `autocomplete_set`: ignored while disabled. */
  function WithCandidates(c: CompState, candidates: seq<string>): (r: CompState)
    ensures c.enabled ==> r.candidates == candidates
    ensures !c.enabled ==> r == c
    ensures r.enabled == c.enabled && r.prefix == c.prefix && r.index == c.index
  {
    if c.enabled then c.(candidates := candidates) else c
  }

  /** `autocomplete_clean`. */
  function Cleaned(c: CompState): (r: CompState)
    ensures r.index == 0 && r.prefix == None
    ensures r.enabled == c.enabled && r.candidates == c.candidates
  {
    c.(prefix := None, index := 0)
  }

  /** `autocomplete_process(entry)`: the new completer state and the text to
      put in the buffer. */
  function Completed(c: CompState, entry: string): (r: (CompState, string))
    ensures r.0.enabled == c.enabled && r.0.candidates == c.candidates
    ensures r.1 == entry || (r.0.prefix.Some? && r.1 in c.candidates && StartsWith(r.1, r.0.prefix.value))
  {
    if !c.enabled || c.candidates == [] then (c, entry)
    else
      var prefix := c.prefix.GetOr(entry);
      var m := Matches(c.candidates, prefix);
      if m != [] then (c.(prefix := Some(prefix), index := c.index + 1), m[c.index % |m|])
      else (c.(prefix := Some(prefix)), entry)
  }

  /** Disabled, or with no candidates, completion returns its input and changes
      nothing. */
  lemma CompletionInert(c: CompState, entry: string)
    requires !c.enabled || c.candidates == []
    ensures Completed(c, entry) == (c, entry)
  {
  }

  /** The first Tab after a clean captures the buffer as the prefix; later Tabs
      keep matching against that prefix, whatever the buffer now holds. */
  lemma PrefixCaptured(c: CompState, entry: string)
    requires c.enabled && c.candidates != []
    ensures c.prefix == None ==> Completed(c, entry).0.prefix == Some(entry)
    ensures c.prefix.Some? ==> Completed(c, entry).0.prefix == c.prefix
  {
  }

  /** A hit returns `matches[index mod |matches|]` and advances the index; a
      miss returns the input and leaves the index alone. */
  lemma CompletionCycles(c: CompState, entry: string)
    requires c.enabled && c.candidates != []
    ensures var p := c.prefix.GetOr(entry);
            var m := Matches(c.candidates, p);
            var r := Completed(c, entry);
            (m != [] ==> r.1 == m[c.index % |m|] && r.0.index == c.index + 1)
            && (m == [] ==> r.1 == entry && r.0.index == c.index)
  {
  }

  /** `Autocomplete`: the completer's fields. */
  class Completer {
    var enabled: bool
    var candidates: seq<string>
    var prefix: Option<string>
    var index: nat

    function State(): CompState
      reads this
    {
      CompState(enabled, candidates, prefix, index)
    }

    constructor ()
      ensures State() == InitialCompletion()
    {
      enabled := true;
      candidates := [];
      prefix := None;
      index := 0;
    }

    /** `autocomplete_set`. */
    method Set(list: seq<string>)
      modifies this
      ensures State() == WithCandidates(old(State()), list)
    {
      if !enabled {
        return;
      }
      candidates := list;
    }

    /** `autocomplete_clean`. */
    method Clean()
      modifies this
      ensures State() == Cleaned(old(State()))
    {
      index := 0;
      prefix := None;
    }

    /** `autocomplete_process`. */
    method Process(entry: string) returns (r: string)
      modifies this
      ensures (State(), r) == Completed(old(State()), entry)
    {
      if !enabled || candidates == [] {
        return entry;
      }
      if prefix.None? {
        prefix := Some(entry);
      }
      var m := Matches(candidates, prefix.value);
      if m != [] {
        r := m[index % |m|];
        index := index + 1;
        return;
      }
      r := entry;
    }
  }
}
