/** The wizard: a list of entries asked one after another, each through a
    widget (single select, multi select or value). The widgets themselves
    are abstract: the model records which widget an entry sets up and the
    default it is given, and takes what the active widget's
    `read_non_blocking` returns on a call as a parameter. */
module Wizards {
  import opened Common
  import opened Dict
  import opened Serial

  /** What a widget returns: a text, or the list a multi select gives. */
  datatype Answer = Text(text: string) | Items(items: seq<string>)

  /** Python truth of an answer used as a default. */
  predicate Truthy(a: Answer) {
    match a
    case Text(t) => t != ""
    case Items(xs) => xs != []
  }

  /** One entry of the wizard configuration; `kind` is its "type" key
      (None when absent), `default` is "" when absent. The widget's data,
      rules and settings are not modelled. */
  datatype Entry = Entry(caption: string, kind: Option<string>, name: string, default: Answer)

  datatype Widget = SingleSelectWidget | MultiSelectWidget | ValueWidget

  /** The active widget and the default loaded into it, if one was. */
  datatype Setup = Setup(widget: Widget, preset: Option<Answer>)

  /** The wizard's fields: the info line, the configuration, the default
      values by name, `_printed_index`, `_active_component` and `_results`. */
  datatype WizardState = WizardState(info: string, config: seq<Entry>, defaults: Table<Answer>,
                                     index: Option<nat>, active: Option<Setup>, results: Table<Answer>)

  /** The index names an entry, and a widget is active only once an entry
      has been set up. */
  predicate Valid(s: WizardState) {
    (s.index.Some? ==> s.index.value < |s.config|) && (s.active.Some? ==> s.index.Some?)
  }

  /** The entry types the wizard knows. */
  function WidgetFor(kind: Option<string>): Option<Widget> {
    if kind == Some("single_select") then Some(SingleSelectWidget)
    else if kind == Some("multi_select") then Some(MultiSelectWidget)
    else if kind == Some("value") then Some(ValueWidget)
    else None
  }

  /** Every entry has a known type. */
  predicate KnownTypes(config: seq<Entry>) {
    forall i :: 0 <= i < |config| ==> WidgetFor(config[i].kind).Some?
  }

  /** The default an entry starts from: the wizard's default values win over
      the entry's own. */
  function DefaultFor(defaults: Table<Answer>, e: Entry): Answer {
    Find(defaults, e.name).GetOr(e.default)
  }

  /** The widget an entry sets up: a value widget always gets the default, a
      select only a default that is true. None for an unknown type. */
  function SetUp(e: Entry, default: Answer): (r: Option<Setup>)
    ensures r.Some? <==> WidgetFor(e.kind).Some?
    ensures r.Some? ==> r.value.widget == WidgetFor(e.kind).value
    ensures r.Some? ==> (r.value.preset.Some? <==> r.value.widget == ValueWidget || Truthy(default))
    ensures r.Some? && r.value.preset.Some? ==> r.value.preset.value == default
  {
    match WidgetFor(e.kind)
    case None => None
    case Some(ValueWidget) => Some(Setup(ValueWidget, Some(default)))
    case Some(w) => Some(Setup(w, if Truthy(default) then Some(default) else None))
  }

  /** `reset()`. */
  function Cleared(s: WizardState): (r: WizardState)
    ensures Valid(r) && r.index.None? && r.active.None? && r.results == []
    ensures r.info == s.info && r.config == s.config && r.defaults == s.defaults
  {
    s.(index := None, active := None, results := [])
  }

  /** The effect of a step: the new state, the lines written, and the type
      named by the ValueError raised, if one was. */
  datatype Init = Init(st: WizardState, out: seq<string>, failure: Option<Option<string>>)

  /** `_init_wizard_entry()`: the entry at the index (0 when unset) has its
      label written and its widget set up; an unknown type raises after the
      label was written, leaving the active widget as it was. */
  function InitEntry(s: WizardState): (r: Init)
    requires Valid(s) && |s.config| > 0
    ensures var i := s.index.GetOr(0);
            var e := s.config[i];
            Valid(r.st) && r.st.index == Some(i) && r.out == [e.caption + "\r\n"]
            && r.st.info == s.info && r.st.config == s.config && r.st.defaults == s.defaults
            && r.st.results == s.results
            && (r.failure.Some? <==> WidgetFor(e.kind).None?)
            && (r.failure.Some? ==> r.failure.value == e.kind && r.st.active == s.active)
            && (r.failure.None? ==> r.st.active == SetUp(e, DefaultFor(s.defaults, e)))
  {
    var i := s.index.GetOr(0);
    var e := s.config[i];
    var out := [e.caption + "\r\n"];
    match SetUp(e, DefaultFor(s.defaults, e))
    case None => Init(s.(index := Some(i)), out, Some(e.kind))
    case Some(w) => Init(s.(index := Some(i), active := Some(w)), out, None)
  }

  /** `_set_value(value)`: the answer is stored under the current entry's name. */
  function Stored(s: WizardState, value: Answer): (r: WizardState)
    requires Valid(s) && s.index.Some?
    ensures Valid(r) && r == s.(results := r.results)
    ensures Find(r.results, s.config[s.index.value].name) == Some(value)
  {
    var name := s.config[s.index.value].name;
    FindPut(s.results, name, value, name);
    s.(results := Put(s.results, name, value))
  }

  /** Storing an answer leaves the results under every other name alone. */
  lemma StoredKeepsOthers(s: WizardState, value: Answer)
    requires Valid(s) && s.index.Some?
    ensures forall n :: n != s.config[s.index.value].name ==>
                        Find(Stored(s, value).results, n) == Find(s.results, n)
  {
    var name := s.config[s.index.value].name;
    forall n | n != name ensures Find(Put(s.results, name, value), n) == Find(s.results, n) {
      FindPut(s.results, name, value, n);
    }
  }

  /** What `_next_entry` did: the effect and whether there was a next entry. */
  datatype Advance = Advance(st: WizardState, out: seq<string>, more: bool, failure: Option<Option<string>>)

  /** `_next_entry()`: False at the last entry, with nothing changed;
      otherwise the index moves on and the next entry is set up. */
  function Advanced(s: WizardState): (r: Advance)
    requires Valid(s) && s.index.Some?
    ensures Valid(r.st) && r.st.index.Some? && r.st.results == s.results
    ensures r.st.info == s.info && r.st.config == s.config && r.st.defaults == s.defaults
    ensures !r.more <==> s.index.value + 1 >= |s.config|
    ensures !r.more ==> r == Advance(s, [], false, None)
    ensures r.more ==> r.st.index == Some(s.index.value + 1)
                       && (r.failure.None? <==> WidgetFor(s.config[s.index.value + 1].kind).Some?)
                       && (r.failure.Some? ==> r.st.active.None?)
                       && (r.failure.None? ==> var e := s.config[s.index.value + 1];
                                               r.st.active == SetUp(e, DefaultFor(s.defaults, e)))
  {
    var i := s.index.value;
    if |s.config| <= i + 1 then Advance(s, [], false, None)
    else
      var n := InitEntry(s.(index := Some(i + 1), active := None));
      Advance(n.st, n.out, true, n.failure)
  }

  /** What `read_non_blocking` gives back: None, the results once the last
      entry is answered, or the ValueError of an entry of unknown type. */
  datatype Reply = Pending | Finished(results: Table<Answer>) | InvalidType(kind: Option<string>)

  datatype WizardTurn = WizardTurn(st: WizardState, out: seq<string>, reply: Reply)

  /** `_print_wizard_info()`: the info line, when it is not empty. */
  function InfoLines(info: string): seq<string> {
    if info != "" then [info + "\r\n"] else []
  }

  /** The start of `read_non_blocking`: the first call writes the info and
      sets up entry 0. */
  function Started(s: WizardState): (r: Init)
    requires Valid(s) && (s.index.None? ==> |s.config| > 0)
    ensures Valid(r.st) && r.st.index == Some(s.index.GetOr(0))
    ensures r.st.info == s.info && r.st.config == s.config && r.st.defaults == s.defaults && r.st.results == s.results
    ensures s.index.Some? ==> r == Init(s, [], None)
    ensures s.index.None? ==> var e := s.config[0];
                              (r.failure.None? <==> WidgetFor(e.kind).Some?)
                              && (r.failure.None? ==> r.st.active == SetUp(e, DefaultFor(s.defaults, e)))
  {
    if s.index.None? then
      var i := InitEntry(s);
      Init(i.st, InfoLines(s.info) + i.out, i.failure)
    else Init(s, [], None)
  }

  /** `read_non_blocking()`, where `result` is what the active widget's
      `read_non_blocking` returns on this call (it is not asked when no
      widget is active). */
  function Step(s: WizardState, result: Option<Answer>): (r: WizardTurn)
    requires Valid(s) && (s.index.None? ==> |s.config| > 0)
    ensures Valid(r.st) && r.st.index.Some?
    ensures r.st.info == s.info && r.st.config == s.config && r.st.defaults == s.defaults
  {
    var start := Started(s);
    if start.failure.Some? then WizardTurn(start.st, start.out, InvalidType(start.failure.value))
    else if start.st.active.None? || result.None? then WizardTurn(start.st, start.out, Pending)
    else
      var t := Answered(start.st, result.value);
      WizardTurn(t.st, start.out + t.out, t.reply)
  }

  /** The rest of `read_non_blocking` once the active widget has answered:
      the answer is stored and the wizard moves on, or returns the results
      after the last entry. */
  function Answered(s: WizardState, a: Answer): (r: WizardTurn)
    requires Valid(s) && s.index.Some?
    ensures Valid(r.st) && r.st.index.Some?
    ensures r.st.info == s.info && r.st.config == s.config && r.st.defaults == s.defaults
  {
    var n := Advanced(Stored(s, a));
    var reply := if n.failure.Some? then InvalidType(n.failure.value)
                 else if n.more then Pending
                 else Finished(n.st.results);
    WizardTurn(n.st, n.out, reply)
  }

  /** The first call writes the info line (when there is one) and the label
      of the first entry, and sets that entry up. */
  lemma FirstRead(s: WizardState, result: Option<Answer>)
    requires Valid(s) && s.index.None? && |s.config| > 0
    ensures var r := Step(s, result);
            var e := s.config[0];
            r.out[..|InfoLines(s.info)| + 1] == InfoLines(s.info) + [e.caption + "\r\n"]
            && (WidgetFor(e.kind).None? ==> r == WizardTurn(s.(index := Some(0)), r.out, InvalidType(e.kind)))
            && (WidgetFor(e.kind).Some? && result.None? ==>
                  r.st == s.(index := Some(0), active := SetUp(e, DefaultFor(s.defaults, e))) && r.reply == Pending)
  {
    var st := Started(s);
    assert st.out == InfoLines(s.info) + [s.config[0].caption + "\r\n"];
    if WidgetFor(s.config[0].kind).Some? && result.Some? {
      var t := Answered(st.st, result.value);
      assert Step(s, result).out == st.out + t.out;
      assert (st.out + t.out)[..|st.out|] == st.out;
    }
  }

  /** A call while a widget is active and has no answer yet changes nothing
      and writes nothing. */
  lemma NoAnswerNoChange(s: WizardState)
    requires Valid(s) && s.index.Some?
    ensures Step(s, None) == WizardTurn(s, [], Pending)
  {
  }

  /** Once set up, an answer is stored under the entry's name; the results
      come back exactly when that entry was the last one; otherwise the next
      entry is set up. */
  lemma AnswerStored(s: WizardState, a: Answer)
    requires Valid(s) && s.index.Some?
    ensures var r := Answered(s, a);
            var i := s.index.value;
            r.st.results == Put(s.results, s.config[i].name, a)
            && Find(r.st.results, s.config[i].name) == Some(a)
            && (forall n :: n != s.config[i].name ==> Find(r.st.results, n) == Find(s.results, n))
            && (r.reply.Finished? <==> i + 1 >= |s.config|)
            && (r.reply.Finished? ==> r.reply.results == r.st.results && r.st == Stored(s, a) && r.out == [])
            && (i + 1 < |s.config| ==> r.st.index == Some(i + 1)
                                       && (r.reply == Pending <==> WidgetFor(s.config[i + 1].kind).Some?)
                                       && (r.reply == Pending ==> r.st.active.Some?))
  {
    StoredKeepsOthers(s, a);
  }

  /** A wizard whose entries all have known types is ready before each call:
      no index yet, or an entry set up with its widget active. */
  predicate Ready(s: WizardState) {
    Valid(s) && KnownTypes(s.config) && |s.config| > 0 && (s.index.Some? ==> s.active.Some?)
  }

  /** One call from a ready state with an answer: it is stored under the
      entry's name; the results come back at the last entry, and otherwise
      the wizard is ready at the next entry. */
  lemma ReadyStep(s: WizardState, a: Answer)
    requires Ready(s)
    ensures var r := Step(s, Some(a));
            var k := s.index.GetOr(0);
            r.st.results == Put(s.results, s.config[k].name, a)
            && (r.reply.Finished? <==> k + 1 == |s.config|)
            && (r.reply.Finished? ==> r.reply.results == r.st.results)
            && (k + 1 < |s.config| ==> r.reply == Pending && Ready(r.st) && r.st.index == Some(k + 1))
  {
    var st := Started(s).st;
    ReadyStart(s, a);
    AnswerStored(st, a);
    var k := s.index.GetOr(0);
    if k + 1 < |s.config| {
      assert WidgetFor(s.config[k + 1].kind).Some?;
    }
  }

  /** From a ready state the call goes straight to the answer, with the
      entry at the index set up. */
  lemma ReadyStart(s: WizardState, a: Answer)
    requires Ready(s)
    ensures var st := Started(s).st;
            st.index == Some(s.index.GetOr(0)) && st.results == s.results && st.config == s.config
            && st.active.Some? && Valid(st)
            && Step(s, Some(a)).st == Answered(st, a).st && Step(s, Some(a)).reply == Answered(st, a).reply
  {
    assert WidgetFor(s.config[s.index.GetOr(0)].kind).Some?;
  }

  /** The replies of successive calls, each answered by the active widget
      with the next answer, up to the first reply that is not None. */
  function Run(s: WizardState, answers: seq<Answer>): (r: WizardTurn)
    requires Valid(s) && (s.index.None? ==> |s.config| > 0) && answers != []
    decreases |answers|
  {
    var t := Step(s, Some(answers[0]));
    if |answers| == 1 || t.reply != Pending then t else Run(t.st, answers[1..])
  }

  /** No entry from `k` on has the name `n`. */
  predicate UnnamedFrom(config: seq<Entry>, k: nat, n: string) {
    forall i :: k <= i < |config| ==> config[i].name != n
  }

  predicate DistinctNames(config: seq<Entry>) {
    forall i, j :: 0 <= i < j < |config| ==> config[i].name != config[j].name
  }

  /** The results `after` hold answer `answers[i - k]` under the name of
      each entry `i` from `k` on, and agree with `before` on every name no
      such entry has. */
  ghost predicate Collected(config: seq<Entry>, k: nat, answers: seq<Answer>, before: Table<Answer>, after: Table<Answer>) {
    k <= |config| && |answers| == |config| - k
    && (forall i :: k <= i < |config| ==> Find(after, config[i].name) == Some(answers[i - k]))
    && (forall n :: UnnamedFrom(config, k, n) ==> Find(after, n) == Find(before, n))
  }

  /** Answering every remaining entry, from a ready wizard at entry `k`,
      finishes on the last answer with each answer stored under its entry's
      name and every other result kept. */
  lemma {:induction false} RunCollects(s: WizardState, answers: seq<Answer>)
    requires Ready(s) && DistinctNames(s.config)
    requires |answers| == |s.config| - s.index.GetOr(0)
    ensures Run(s, answers).reply.Finished?
    ensures Collected(s.config, s.index.GetOr(0), answers, s.results, Run(s, answers).reply.results)
    decreases |answers|
  {
    if |answers| == 1 {
      LastCollects(s, answers);
    } else {
      var t := Step(s, Some(answers[0]));
      ReadyStep(s, answers[0]);
      RunCollects(t.st, answers[1..]);
      NextCollects(s, answers);
    }
  }

  /** `RunCollects` at the last entry. */
  lemma LastCollects(s: WizardState, answers: seq<Answer>)
    requires Ready(s) && |answers| == 1 && |answers| == |s.config| - s.index.GetOr(0)
    ensures Run(s, answers).reply.Finished?
    ensures Collected(s.config, s.index.GetOr(0), answers, s.results, Run(s, answers).reply.results)
  {
    var k := s.index.GetOr(0);
    var t := Step(s, Some(answers[0]));
    ReadyStep(s, answers[0]);
    assert Run(s, answers) == t;
    assert answers == [answers[0]];
    CollectLast(s.config, k, answers[0], s.results, t.reply.results);
    assert Collected(s.config, k, [answers[0]], s.results, t.reply.results);
  }

  /** The last step of `RunCollects` on the results alone. */
  lemma CollectLast(config: seq<Entry>, k: nat, a: Answer, before: Table<Answer>, after: Table<Answer>)
    requires k + 1 == |config|
    requires after == Put(before, config[k].name, a)
    ensures Collected(config, k, [a], before, after)
  {
    FindPut(before, config[k].name, a, config[k].name);
    forall i | k <= i < |config|
      ensures Find(after, config[i].name) == Some([a][i - k])
    {
      assert i == k;
    }
    forall n | UnnamedFrom(config, k, n)
      ensures Find(after, n) == Find(before, n)
    {
      FindPut(before, config[k].name, a, n);
    }
  }

  /** `RunCollects` before the last entry, given what it states about the
      calls that follow the first. */
  lemma NextCollects(s: WizardState, answers: seq<Answer>)
    requires Ready(s) && DistinctNames(s.config) && |answers| > 1 && |answers| == |s.config| - s.index.GetOr(0)
    requires var t := Step(s, Some(answers[0]));
             var r := Run(t.st, answers[1..]);
             r.reply.Finished? && Collected(t.st.config, t.st.index.GetOr(0), answers[1..], t.st.results, r.reply.results)
    ensures Run(s, answers).reply.Finished?
    ensures Collected(s.config, s.index.GetOr(0), answers, s.results, Run(s, answers).reply.results)
  {
    var k := s.index.GetOr(0);
    var t := Step(s, Some(answers[0]));
    ReadyStep(s, answers[0]);
    var r := Run(t.st, answers[1..]);
    assert t.st.index.GetOr(0) == k + 1 && t.st.config == s.config;
    assert Run(s, answers) == r;
    assert UnnamedFrom(s.config, k + 1, s.config[k].name);
    CollectCombine(s.config, t.st.config, k, t.st.index.GetOr(0), answers, s.results, t.st.results, r.reply.results);
  }

  /** The step of `RunCollects` on the results alone: the answer stored
      first survives the later ones, stored under other names. */
  lemma CollectCombine(config: seq<Entry>, config': seq<Entry>, k: nat, k': nat, answers: seq<Answer>,
                       before: Table<Answer>, mid: Table<Answer>, after: Table<Answer>)
    requires k + 1 < |config| && |answers| == |config| - k && UnnamedFrom(config, k + 1, config[k].name)
    requires config' == config && k' == k + 1
    requires mid == Put(before, config[k].name, answers[0])
    requires Collected(config', k', answers[1..], mid, after)
    ensures Collected(config, k, answers, before, after)
  {
    FindPut(before, config[k].name, answers[0], config[k].name);
    forall i | k < i < |config|
      ensures Find(after, config[i].name) == Some(answers[i - k])
    {
      assert Find(after, config'[i].name) == Some(answers[1..][i - k']);
      TailAt(answers, i - k');
    }
    forall n | UnnamedFrom(config, k, n)
      ensures Find(after, n) == Find(before, n)
    {
      assert config[k].name != n;
      assert UnnamedFrom(config, k + 1, n);
      FindPut(before, config[k].name, answers[0], n);
    }
  }

  lemma TailAt(answers: seq<Answer>, j: nat)
    requires j + 1 < |answers|
    ensures answers[1..][j] == answers[j + 1]
  {
  }

  /** Answering every entry from a reset wizard returns all the answers,
      each under its entry's name. */
  lemma WizardCollectsAll(s: WizardState, answers: seq<Answer>)
    requires KnownTypes(s.config) && DistinctNames(s.config) && |answers| == |s.config| > 0
    ensures var r := Run(Cleared(s), answers);
            r.reply.Finished?
            && forall i :: 0 <= i < |s.config| ==> Find(r.reply.results, s.config[i].name) == Some(answers[i])
  {
    RunCollects(Cleared(s), answers);
    assert Cleared(s).index.GetOr(0) == 0;
  }

  /** The wizard object; `io` is its serial port. */
  class Wizard {
    const io: Console
    var info: string
    var config: seq<Entry>
    var defaults: Table<Answer>
    var index: Option<nat>
    var active: Option<Setup>
    var results: Table<Answer>

    function State(): WizardState
      reads this
    {
      WizardState(info, config, defaults, index, active, results)
    }

    /** `Wizard(serial)`: no entries, no default values, reset. The info is
        empty here; the source leaves it unset until `set_config`. */
    constructor (serial: Console)
      ensures io == serial && State() == WizardState("", [], [], None, None, [])
    {
      io := serial;
      info := "";
      config := [];
      defaults := [];
      index := None;
      active := None;
      results := [];
    }

    /** `set_config(wizard_info, wizard_config)`. */
    method SetConfig(wizardInfo: string, wizardConfig: seq<Entry>)
      modifies this
      ensures State() == Cleared(old(State()).(info := wizardInfo, config := wizardConfig))
    {
      info := wizardInfo;
      config := wizardConfig;
      Reset();
    }

    /** `set_default_values(default_values)`. */
    method SetDefaultValues(defaultValues: Table<Answer>)
      modifies this
      ensures State() == old(State()).(defaults := defaultValues)
    {
      defaults := defaultValues;
    }

    /** `reset()`. */
    method Reset()
      modifies this
      ensures State() == Cleared(old(State()))
    {
      index := None;
      active := None;
      results := [];
    }

    /** `_init_wizard_entry()`; the result is the type named by the
        ValueError raised, if one was. */
    method InitWizardEntry() returns (failure: Option<Option<string>>)
      requires Valid(State()) && |config| > 0
      modifies this, io
      ensures var r := InitEntry(old(State()));
              State() == r.st && io.written == old(io.written) + r.out && io.pending == old(io.pending)
              && failure == r.failure
    {
      if index.None? {
        index := Some(0);
      }
      var entry := config[index.value];
      var default := entry.default;
      var found := Find(defaults, entry.name);
      if found.Some? {
        default := found.value;
      }
      io.WriteLine(entry.caption);
      if entry.kind == Some("single_select") {
        active := Some(Setup(SingleSelectWidget, if Truthy(default) then Some(default) else None));
      } else if entry.kind == Some("multi_select") {
        active := Some(Setup(MultiSelectWidget, if Truthy(default) then Some(default) else None));
      } else if entry.kind == Some("value") {
        active := Some(Setup(ValueWidget, Some(default)));
      } else {
        return Some(entry.kind);
      }
      return None;
    }

    /** `_set_value(value)`. */
    method SetValue(value: Answer)
      requires Valid(State()) && index.Some?
      modifies this
      ensures State() == Stored(old(State()), value)
    {
      results := Put(results, config[index.value].name, value);
    }

    /** `_next_entry()`. */
    method NextEntry() returns (more: bool, failure: Option<Option<string>>)
      requires Valid(State()) && index.Some?
      modifies this, io
      ensures var r := Advanced(old(State()));
              State() == r.st && io.written == old(io.written) + r.out && io.pending == old(io.pending)
              && more == r.more && failure == r.failure
    {
      if |config| <= index.value + 1 {
        return false, None;
      }
      index := Some(index.value + 1);
      active := None;
      failure := InitWizardEntry();
      more := true;
    }

    /** `keyboard_interrupt()`: passed on only to an active widget that has
        a `keyboard_interrupt` method (`interruptible` says which do). */
    method KeyboardInterrupt(interruptible: Widget -> bool) returns (delegated: bool)
      ensures delegated <==> active.Some? && interruptible(active.value.widget)
    {
      delegated := active.Some? && interruptible(active.value.widget);
    }

    /** The first part of `read_non_blocking`. */
    method Start() returns (failure: Option<Option<string>>)
      requires Valid(State()) && (index.None? ==> |config| > 0)
      modifies this, io
      ensures var r := Started(old(State()));
              State() == r.st && io.written == old(io.written) + r.out && io.pending == old(io.pending)
              && failure == r.failure
    {
      if index.None? {
        if info != "" {
          io.WriteLine(info);
        }
        failure := InitWizardEntry();
        AppendAssoc(old(io.written), InfoLines(info), InitEntry(old(State())).out);
      } else {
        failure := None;
      }
    }

    /** `read_non_blocking()`, where `result` is what the active widget
        returns on this call; an entry of unknown type gives `InvalidType`. */
    method ReadNonBlocking(result: Option<Answer>) returns (reply: Reply)
      requires Valid(State()) && (index.None? ==> |config| > 0)
      modifies this, io
      ensures var r := Step(old(State()), result);
              State() == r.st && io.written == old(io.written) + r.out && io.pending == old(io.pending)
              && reply == r.reply
    {
      ghost var w := io.written;
      ghost var st := Started(State());
      var failure := Start();
      if failure.Some? {
        return InvalidType(failure.value);
      }
      if active.None? || result.None? {
        return Pending;
      }
      SetValue(result.value);
      ghost var n := Advanced(State());
      var more, nextFailure := NextEntry();
      AppendAssoc(w, st.out, n.out);
      if nextFailure.Some? {
        return InvalidType(nextFailure.value);
      }
      if !more {
        return Finished(results);
      }
      return Pending;
    }
  }
}
