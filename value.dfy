/** `Value`: a prompt whose entered line is checked against rules and
    converted before it is returned. Its checker differs from `Validator`:
    a non-boolean word falls through to the other types, int is tried before
    float, and allowed numbers are range-checked. */
module ValueCheck {
  import opened Common
  import opened Rules
  import Validator

  const TypeErrorPrefix := "invalid type - allowed types: "

  /** Some allowed type takes the stripped text: a boolean word, an
      integer, a text float parses, or anything when str is allowed. */
  predicate TypesAccept(types: seq<string>, stripped: string, floatOf: FloatParser) {
    ("bool" in types && IsBoolWord(Lower(stripped))) || ("int" in types && ParseInt(stripped).Some?)
    || ("float" in types && floatOf(stripped).Some?) || "str" in types
  }

  /** `_check_allowed_types(allowed_types, value, stripped_value)`: bool,
      then int, then float, then str; each type is taken only when none
      before it applies. */
  function CheckAllowedTypes(types: seq<string>, value: string, stripped: string, floatOf: FloatParser)
    : (r: Verdict)
    ensures r.valid <==> r.error.None?
    ensures r.valid <==> TypesAccept(types, stripped, floatOf)
    ensures !r.valid ==> r.value == Str(value)
                         && r.error == Some(TypeErrorPrefix + Join(types, ", "))
    ensures r.valid && r.value.Bool? ==> "bool" in types && IsBoolWord(Lower(stripped))
    ensures "bool" in types && IsBoolWord(Lower(stripped)) ==> r.value == Bool(Lower(stripped) in TrueWords)
    ensures r.valid && r.value.Int? ==>
              "int" in types && ParseInt(stripped) == Some(r.value.i)
              && !("bool" in types && IsBoolWord(Lower(stripped)))
    ensures r.valid && r.value.Float? ==>
              "float" in types && floatOf(stripped) == Some(r.value.x)
              && !("bool" in types && IsBoolWord(Lower(stripped))) && !("int" in types && ParseInt(stripped).Some?)
    ensures r.valid && r.value.Str? ==>
              "str" in types && r.value == Str(value)
              && !("bool" in types && IsBoolWord(Lower(stripped))) && !("int" in types && ParseInt(stripped).Some?)
              && !("float" in types && floatOf(stripped).Some?)
  {
    if "bool" in types && Lower(stripped) in TrueWords then Verdict(true, Bool(true), None)
    else if "bool" in types && Lower(stripped) in FalseWords then Verdict(true, Bool(false), None)
    else if "int" in types && ParseInt(stripped).Some? then Verdict(true, Int(ParseInt(stripped).value), None)
    else if "float" in types && floatOf(stripped).Some? then Verdict(true, Float(floatOf(stripped).value), None)
    else if "str" in types then Verdict(true, Str(value), None)
    else Verdict(false, Str(value), Some(TypeErrorPrefix + Join(types, ", ")))
  }

  /** A value as Python compares it with a number: True is 1 and False is 0;
      a string cannot be compared. */
  function Numeric(v: Value): (r: Option<real>)
    ensures r.None? <==> v.Str?
  {
    match v
    case Bool(b) => Some(if b then 1.0 else 0.0)
    case Int(i) => Some(i as real)
    case Float(x) => Some(x)
    case Str(_) => None
  }

  /** What the checker can raise: comparing a string with a bound. */
  const ComparisonError := "TypeError: '<' not supported between 'str' and a number"

  /** `_validate_number(value, rules)`: the bounds present must hold.
      Comparing a string with a bound raises. */
  function ValidateNumber(v: Value, rules: RuleSet): (r: Result<Verdict, string>)
    ensures r.Err? <==> v.Str? && (rules.min.Some? || rules.max.Some?)
    ensures r.Ok? ==> r.value.value == v && (r.value.valid <==> r.value.error.None?)
    ensures r.Ok? && r.value.valid && v.Str? ==> rules.min.None? && rules.max.None?
    ensures r.Ok? && !v.Str? ==>
              (r.value.valid <==> (rules.min.None? || Numeric(v).value >= rules.min.value)
                                  && (rules.max.None? || Numeric(v).value <= rules.max.value))
  {
    if rules.min.Some? && v.Str? then Err(ComparisonError)
    else if rules.min.Some? && Numeric(v).value < rules.min.value then Ok(Verdict(false, v, Some("too small")))
    else if rules.max.Some? && v.Str? then Err(ComparisonError)
    else if rules.max.Some? && Numeric(v).value > rules.max.value then Ok(Verdict(false, v, Some("too big")))
    else Ok(Verdict(true, v, None))
  }

  /** The bounds present hold for the value (a string meets no bound). */
  predicate WithinBounds(v: Value, rules: RuleSet) {
    (rules.min.None? || (Numeric(v).Some? && Numeric(v).value >= rules.min.value))
    && (rules.max.None? || (Numeric(v).Some? && Numeric(v).value <= rules.max.value))
  }

  /** Whether a rules dictionary is empty (`not rules`). */
  predicate Empty(rules: RuleSet) {
    rules == NoRules
  }

  /** The first of the length, character and membership rules the stripped
      input breaks, as its error message. */
  function TextCheck(rules: RuleSet, stripped: string): (e: Option<string>)
    ensures e.None? <==> LengthOk(rules, stripped) && CharsOk(rules, stripped) && ValuesOk(rules, stripped)
    ensures rules.minLength.Some? && |stripped| < rules.minLength.value ==> e == Some("too short")
    ensures ((rules.minLength.None? || |stripped| >= rules.minLength.value)
             && rules.maxLength.Some? && |stripped| > rules.maxLength.value) ==> e == Some("too long")
    ensures LengthOk(rules, stripped) && !CharsOk(rules, stripped) ==> e == Some("invalid character")
    ensures LengthOk(rules, stripped) && CharsOk(rules, stripped) && !ValuesOk(rules, stripped)
            ==> e == Some("invalid value")
  {
    if rules.minLength.Some? && |stripped| < rules.minLength.value then Some("too short")
    else if rules.maxLength.Some? && |stripped| > rules.maxLength.value then Some("too long")
    else if !CharsOk(rules, stripped) then Some("invalid character")
    else if !ValuesOk(rules, stripped) then Some("invalid value")
    else None
  }

  /** The type conversion, followed by the range check of an allowed number. */
  function TypeCheck(types: seq<string>, rules: RuleSet, value: string, stripped: string, floatOf: FloatParser)
    : (r: Result<Verdict, string>)
    ensures r.Ok? ==> (r.value.valid <==> r.value.error.None?)
    ensures var t := CheckAllowedTypes(types, value, stripped, floatOf);
            var numeric := "int" in types || "float" in types;
            (r.Err? <==> t.valid && numeric && t.value.Str? && (rules.min.Some? || rules.max.Some?))
            && (r.Ok? ==> r.value.value == t.value)
            && (r.Ok? ==> (r.value.valid <==> t.valid && (numeric ==> WithinBounds(t.value, rules))))
            && (r.Ok? && !t.valid ==> r.value.error == t.error)
            && (r.Ok? && t.valid && !r.value.valid ==>
                  r.value.error == Some(if rules.min.Some? && Numeric(t.value).value < rules.min.value
                                        then "too small" else "too big"))
  {
    var t := CheckAllowedTypes(types, value, stripped, floatOf);
    if !t.valid then Ok(t)
    else if "int" in types || "float" in types then ValidateNumber(t.value, rules)
    else Ok(t)
  }

  /** `_validate_user_input(value, rules)`: empty rules accept the input as
      it is; otherwise length, characters and allowed values are checked on
      the stripped input, then the types, then the range of a number. */
  function ValidateUserInput(value: string, rules: RuleSet, floatOf: FloatParser)
    : (r: Result<Verdict, string>)
    ensures r.Ok? ==> (r.value.valid <==> r.value.error.None?)
  {
    if Empty(rules) then Ok(Verdict(true, Str(value), None))
    else
      var stripped := Strip(value);
      var failure := TextCheck(rules, stripped);
      if failure.Some? then Ok(Verdict(false, Str(value), failure))
      else if rules.allowedTypes.Some? then TypeCheck(rules.allowedTypes.value, rules, value, stripped, floatOf)
      else Ok(Verdict(true, Str(value), None))
  }

  /** Soundness: an accepted input met the length, character and membership
      rules on its stripped form; an accepted number lies within the bounds. */
  lemma {:induction false} AcceptedMeetsRules(value: string, rules: RuleSet, floatOf: FloatParser)
    requires ValidateUserInput(value, rules, floatOf).Ok?
    requires ValidateUserInput(value, rules, floatOf).value.valid
    ensures var v := Strip(value);
            LengthOk(rules, v) && CharsOk(rules, v) && ValuesOk(rules, v)
    ensures var r := ValidateUserInput(value, rules, floatOf).value.value;
            (Allows(rules, "int") || Allows(rules, "float")) && !r.Str? ==>
              (rules.min.None? || Numeric(r).value >= rules.min.value)
              && (rules.max.None? || Numeric(r).value <= rules.max.value)
    ensures rules.allowedTypes.None? ==> ValidateUserInput(value, rules, floatOf).value.value == Str(value)
  {
    if !Empty(rules) && rules.allowedTypes.Some? {
      var types := rules.allowedTypes.value;
      var t := CheckAllowedTypes(types, value, Strip(value), floatOf);
      if "int" in types || "float" in types {
        assert TypeCheck(types, rules, value, Strip(value), floatOf) == ValidateNumber(t.value, rules);
      }
    }
  }

  /** The empty-rules shortcut agrees with the general path: rules that
      name none of the keys this checker reads accept every input unchanged. */
  lemma UnusedKeysAccept(value: string, rules: RuleSet, floatOf: FloatParser)
    requires rules.minLength.None? && rules.maxLength.None? && rules.allowedChars.None?
    requires rules.allowedValues.None? && rules.allowedTypes.None?
    ensures ValidateUserInput(value, rules, floatOf) == Ok(Verdict(true, Str(value), None))
  {
  }

  /** Unlike `Validator`, a word that is not boolean falls through to the
      other allowed types: with bool and int allowed, "5" is the int 5 here
      while the stateless checker calls it an invalid value. */
  lemma BoolFallsThrough(floatOf: FloatParser, matches: (string, string) -> bool)
    ensures var rules := NoRules.(allowedTypes := Some(["bool", "int"]));
            ValidateUserInput("5", rules, floatOf) == Ok(Verdict(true, Int(5), None))
            && Validator.Validate(rules, "5", floatOf, matches) == Verdict(false, Str("5"), Some("invalid value"))
  {
    ParseIntOfNat(5);
    assert NatToString(5) == "5";
    StripNoSpaceEnds("5");
    assert Lower("5") == "5";
  }

  /** Comparing a string with a bound raises: with int and str allowed and a
      minimum, a word that is no number makes the checker fail. */
  lemma StringAgainstBoundRaises(s: string, floatOf: FloatParser)
    requires Strip(s) == s && ParseInt(s) == None
    ensures var rules := NoRules.(allowedTypes := Some(["int", "str"]), min := Some(0.0));
            ValidateUserInput(s, rules, floatOf).Err?
  {
    var rules := NoRules.(allowedTypes := Some(["int", "str"]), min := Some(0.0));
    TypedWhenTextPasses(s, rules, floatOf);
  }

  /** The int rules `{"allowed_types": ["int"], "min": 0, "max": 1000}`. */
  const Percentile := NoRules.(allowedTypes := Some(["int"]), min := Some(0.0), max := Some(1000.0))

  /** An input whose stripped form passes the text rules goes on to the
      type check. */
  lemma TypedWhenTextPasses(value: string, rules: RuleSet, floatOf: FloatParser)
    requires !Empty(rules) && TextCheck(rules, Strip(value)).None?
    requires rules.allowedTypes.Some?
    ensures ValidateUserInput(value, rules, floatOf)
            == TypeCheck(rules.allowedTypes.value, rules, value, Strip(value), floatOf)
  {
  }

  /** The first text rule the stripped input breaks rejects it, with that
      rule's message and the input as given. */
  lemma TextRuleRejects(value: string, rules: RuleSet, floatOf: FloatParser)
    requires !Empty(rules) && TextCheck(rules, Strip(value)).Some?
    ensures ValidateUserInput(value, rules, floatOf)
            == Ok(Verdict(false, Str(value), TextCheck(rules, Strip(value))))
  {
  }

  /** Completeness without a type list: non-empty rules whose text rules the
      stripped input meets accept the input as given. */
  lemma TextRulesMetIsValid(value: string, rules: RuleSet, floatOf: FloatParser)
    requires var v := Strip(value); LengthOk(rules, v) && CharsOk(rules, v) && ValuesOk(rules, v)
    requires rules.allowedTypes.None?
    ensures ValidateUserInput(value, rules, floatOf) == Ok(Verdict(true, Str(value), None))
  {
  }

  /** Every rejection names its cause: the first broken text rule, else a
      type list that takes nothing (listing the allowed types), else a bound
      the number misses. */
  lemma RejectionMessage(value: string, rules: RuleSet, floatOf: FloatParser)
    requires ValidateUserInput(value, rules, floatOf).Ok?
    requires !ValidateUserInput(value, rules, floatOf).value.valid
    ensures var v := Strip(value);
            var e := ValidateUserInput(value, rules, floatOf).value.error;
            (TextCheck(rules, v).Some? ==> e == TextCheck(rules, v))
            && (TextCheck(rules, v).None? ==> rules.allowedTypes.Some?)
            && (TextCheck(rules, v).None? && rules.allowedTypes.Some?
                && !TypesAccept(rules.allowedTypes.value, v, floatOf)
                ==> e == Some(TypeErrorPrefix + Join(rules.allowedTypes.value, ", ")))
            && (TextCheck(rules, v).None? && rules.allowedTypes.Some?
                && TypesAccept(rules.allowedTypes.value, v, floatOf)
                ==> e == Some("too small") || e == Some("too big"))
  {
    if TextCheck(rules, Strip(value)).None? && rules.allowedTypes.Some? {
      TypedWhenTextPasses(value, rules, floatOf);
    }
  }

  /** Acceptance in full: an input is accepted exactly when the rules are
      empty, or its stripped form meets the text rules and, with a type list,
      some allowed type takes it and an allowed number lies within the
      bounds. */
  lemma ValidIff(value: string, rules: RuleSet, floatOf: FloatParser)
    ensures var r := ValidateUserInput(value, rules, floatOf);
            var v := Strip(value);
            (r.Ok? && r.value.valid)
            <==> Empty(rules)
                 || (LengthOk(rules, v) && CharsOk(rules, v) && ValuesOk(rules, v)
                     && (rules.allowedTypes.Some? ==>
                           var types := rules.allowedTypes.value;
                           TypesAccept(types, v, floatOf)
                           && (("int" in types || "float" in types) ==>
                                 WithinBounds(CheckAllowedTypes(types, value, v, floatOf).value, rules))))
  {
    if !Empty(rules) && TextCheck(rules, Strip(value)).None? && rules.allowedTypes.Some? {
      TypedWhenTextPasses(value, rules, floatOf);
    }
  }

  /** With those rules every int is accepted from 0 to 1000, too small below
      and too big above. */
  lemma PercentileOfInt(s: string, n: int, floatOf: FloatParser)
    requires Strip(s) == s && ParseInt(s) == Some(n)
    ensures ValidateUserInput(s, Percentile, floatOf)
            == Ok(if n < 0 then Verdict(false, Int(n), Some("too small"))
                  else if n > 1000 then Verdict(false, Int(n), Some("too big"))
                  else Verdict(true, Int(n), None))
  {
    TypedWhenTextPasses(s, Percentile, floatOf);
  }

  /** A numeral strips to itself and parses as its number. */
  lemma NumeralParses(n: nat)
    ensures Strip(NatToString(n)) == NatToString(n) && ParseInt(NatToString(n)) == Some(n)
  {
    var s := NatToString(n);
    ParseIntOfNat(n);
    assert !IsSpace(s[0]) && !IsSpace(s[|s| - 1]);
    StripNoSpaceEnds(s);
  }

  /** With those rules "500" is the int 500. */
  lemma InRangeAccepted(floatOf: FloatParser)
    ensures ValidateUserInput("500", Percentile, floatOf) == Ok(Verdict(true, Int(500), None))
  {
    assert NatToString(500) == "500";
    NumeralParses(500);
    PercentileOfInt("500", 500, floatOf);
  }

  /** With those rules "1500" is too big, and the int comes back. */
  lemma AboveRangeRejected(floatOf: FloatParser)
    ensures ValidateUserInput("1500", Percentile, floatOf) == Ok(Verdict(false, Int(1500), Some("too big")))
  {
    assert NatToString(1500) == "1500";
    NumeralParses(1500);
    PercentileOfInt("1500", 1500, floatOf);
  }

  /** "abc" is no int. */
  lemma WordIsNoInt()
    ensures ParseInt("abc") == None && Strip("abc") == "abc"
  {
    StripNoSpaceEnds("abc");
    assert !IsDigit('a');
  }

  /** With those rules a word that is no int is of an invalid type, and the
      message lists the allowed types: "abc" is one. */
  lemma WordRejected(s: string, floatOf: FloatParser)
    requires Strip(s) == s && ParseInt(s) == None
    ensures ValidateUserInput(s, Percentile, floatOf)
            == Ok(Verdict(false, Str(s), Some("invalid type - allowed types: int")))
  {
    assert TypeErrorPrefix + Join(["int"], ", ") == "invalid type - allowed types: int";
    TypedWhenTextPasses(s, Percentile, floatOf);
  }

  /** "abc" in particular is of an invalid type under those rules. */
  lemma AbcRejected(floatOf: FloatParser)
    ensures ValidateUserInput("abc", Percentile, floatOf)
            == Ok(Verdict(false, Str("abc"), Some("invalid type - allowed types: int")))
  {
    WordIsNoInt();
    WordRejected("abc", floatOf);
  }

  /** The optional `{"boolean": {"true": …, "false": …}}` settings. */
  datatype BooleanWords = BooleanWords(yes: Option<string>, no: Option<string>)

  /** The answer to one read: the converted value (None while the line is
      still being edited or after a rejected entry), or the error the
      checker raised; and the lines written. */
  function Answered(entry: Option<string>, rules: RuleSet, floatOf: FloatParser)
    : (r: (Result<Option<Value>, string>, seq<string>))
    ensures entry.None? ==> r == (Ok(None), [])
    ensures r.0.Ok? && r.0.value.Some? ==>
              r.1 == [] && ValidateUserInput(entry.value, rules, floatOf) == Ok(Verdict(true, r.0.value.value, None))
    ensures r.0 == Ok(None) && entry.Some? ==>
              |r.1| == 1 && ValidateUserInput(entry.value, rules, floatOf).Ok?
              && !ValidateUserInput(entry.value, rules, floatOf).value.valid
              && r.1[0] == ValidateUserInput(entry.value, rules, floatOf).value.error.value + "\r\n"
  {
    if entry.None? then (Ok(None), [])
    else
      match ValidateUserInput(entry.value, rules, floatOf)
      case Err(e) => (Err(e), [])
      case Ok(v) =>
        if v.valid then (Ok(Some(v.value)), [])
        else (Ok(None), [v.error.value + "\r\n"])
  }

}

/** The `Value` prompt object: the line editor with rules and boolean words. */
module ValueInput {
  import opened Common
  import opened Rules
  import opened Serial
  import opened Input
  import opened ValueCheck
  import Editor
  import PromptLine

  class ValuePrompt {
    /** The line editor this prompt extends. */
    const prompt: PromptLine.Prompt
    /** `float(s)`, supplied by the caller. */
    const floatOf: FloatParser
    var rules: RuleSet
    var booleanTrue: string
    var booleanFalse: string

    constructor (serial: Console, floatOf: FloatParser)
      ensures prompt.io == serial && prompt.State() == Editor.InitialLine() && prompt.Valid()
      ensures this.floatOf == floatOf
      ensures rules == NoRules && booleanTrue == "yes" && booleanFalse == "no"
      ensures fresh(prompt) && fresh(prompt.history) && fresh(prompt.completer)
    {
      prompt := new PromptLine.Prompt(serial);
      this.floatOf := floatOf;
      rules := NoRules;
      booleanTrue := "yes";
      booleanFalse := "no";
    }

    /** `set_rules(rules)`. */
    method SetRules(r: RuleSet)
      modifies this
      ensures rules == r && booleanTrue == old(booleanTrue) && booleanFalse == old(booleanFalse)
    {
      rules := r;
    }

    /** `set_value(value)`: a string is put in the buffer as it is, a boolean
        as the configured true or false word; the cursor goes to the end. */
    method SetValue(v: Value)
      requires v.Str? || v.Bool?
      modifies prompt
      ensures var text := if v.Bool? then (if v.b then booleanTrue else booleanFalse) else v.s;
              prompt.State() == old(prompt.State()).(buffer := text, cursor := |text|)
      ensures old(prompt.Valid()) ==> prompt.Valid()
    {
      var text := if v.Bool? then (if v.b then booleanTrue else booleanFalse) else v.s;
      prompt.SetBuffer(text);
    }

    /** `set_settings(settings)`: only the words present are replaced. */
    method SetSettings(boolean: Option<BooleanWords>)
      modifies this
      ensures booleanTrue == if boolean.Some? && boolean.value.yes.Some? then boolean.value.yes.value else old(booleanTrue)
      ensures booleanFalse == if boolean.Some? && boolean.value.no.Some? then boolean.value.no.value else old(booleanFalse)
      ensures rules == old(rules)
    {
      if boolean.Some? {
        if boolean.value.yes.Some? {
          booleanTrue := boolean.value.yes.value;
        }
        if boolean.value.no.Some? {
          booleanFalse := boolean.value.no.value;
        }
      }
    }

    /** `read_non_blocking(prompt_string)`: a line entered on the prompt is
        checked; a valid one is returned converted, an invalid one has its
        error written and gives None. */
    method ReadNonBlocking(promptString: string) returns (r: Result<Option<Value>, string>)
      requires prompt.Valid() && ReadKeySpec(prompt.io.pending) != Fault
      requires var k := ReadKeySpec(prompt.io.pending).key;
               prompt.commandsEnabled || k.None? || k.value.kind == CharKey || k.value.name != "CTRL_M"
      modifies prompt, prompt.io, prompt.history, prompt.completer
      ensures var d := ReadKeySpec(old(prompt.io.pending));
              var s := Editor.ReadStep(old(prompt.State()), d.key, promptString);
              var a := Answered(s.line, rules, floatOf);
              prompt.io.pending == d.rest && prompt.State() == s.st && r == a.0
              && prompt.io.written == old(prompt.io.written) + s.out + a.1
    {
      var entry := prompt.ReadNonBlocking(promptString);
      ghost var written := prompt.io.written;
      if entry.None? {
        return Ok(None);
      }
      var checked := ValidateUserInput(entry.value, rules, floatOf);
      if checked.Err? {
        return Err(checked.error);
      }
      if checked.value.valid {
        return Ok(Some(checked.value.value));
      }
      prompt.io.WriteLine(checked.value.error.value);
      r := Ok(None);
      assert prompt.io.written == written + [checked.value.error.value + "\r\n"];
    }
  }
}
