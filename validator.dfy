/** `Validator`: a stateless checker. The rules run in a fixed order and the
    first one that fails decides the verdict. */
module Validator {
  import opened Common
  import opened Rules

  /** The text the rules look at: the input, stripped unless `no_strip`. */
  function Subject(rules: RuleSet, input: string): (v: string)
    ensures !rules.noStrip ==> v == Strip(input)
    ensures rules.noStrip ==> v == input
  {
    if rules.noStrip then input else Strip(input)
  }

  /** Whether the type list accepts the text: with "bool" only a boolean
      word; otherwise a text float parses, an integer, or anything when str
      is allowed. */
  predicate TypesAccept(types: seq<string>, value: string, floatOf: FloatParser) {
    if "bool" in types then IsBoolWord(Lower(value))
    else ("float" in types && floatOf(value).Some?) || ("int" in types && ParseInt(value).Some?)
         || "str" in types
  }

  /** `_check_allowed_types(allowed_types, input_value, value)`. With "bool"
      allowed only a boolean word is valid; otherwise float is tried, then
      int, then str (which returns the input unstripped). */
  function CheckAllowedTypes(types: seq<string>, input: string, value: string, floatOf: FloatParser)
    : (r: Verdict)
    ensures r.valid <==> r.error.None?
    ensures !r.valid ==> r.value == Str(input)
    ensures "bool" in types ==> (r.valid <==> IsBoolWord(Lower(value)))
    ensures r.valid <==> TypesAccept(types, value, floatOf)
    ensures !r.valid ==> r.error == Some(if "bool" in types then "invalid value" else "invalid type")
    ensures r.valid && "bool" in types ==> r.value == Bool(Lower(value) in TrueWords)
    ensures r.valid && r.value.Float? ==> "float" in types && floatOf(value) == Some(r.value.x)
    ensures r.valid && r.value.Int? ==>
              "int" in types && ParseInt(value) == Some(r.value.i)
              && !("float" in types && floatOf(value).Some?)
    ensures r.valid && r.value.Str? ==>
              "str" in types && r.value.s == input && !("bool" in types)
              && !("float" in types && floatOf(value).Some?) && !("int" in types && ParseInt(value).Some?)
  {
    if "bool" in types then
      var lower := Lower(value);
      if lower in TrueWords then Verdict(true, Bool(true), None)
      else if lower in FalseWords then Verdict(true, Bool(false), None)
      else Verdict(false, Str(input), Some("invalid value"))
    else if "float" in types && floatOf(value).Some? then Verdict(true, Float(floatOf(value).value), None)
    else if "int" in types && ParseInt(value).Some? then Verdict(true, Int(ParseInt(value).value), None)
    else if "str" in types then Verdict(true, Str(input), None)
    else Verdict(false, Str(input), Some("invalid type"))
  }

  /** `_check_rules(rules, input_value)`: length, characters, allowed values,
      then the type list (whose outcome is final), then the regular
      expression. `matches(pattern, text)` stands for `re.match`. */
  function CheckRules(rules: RuleSet, input: string, floatOf: FloatParser,
                      matches: (string, string) -> bool): (r: Verdict)
    ensures r.valid <==> r.error.None?
    ensures !r.valid ==> r.value == Str(input)
  {
    var value := Subject(rules, input);
    if rules.minLength.Some? && |value| < rules.minLength.value then
      Verdict(false, Str(input), Some("too short"))
    else if rules.maxLength.Some? && |value| > rules.maxLength.value then
      Verdict(false, Str(input), Some("too long"))
    else if !CharsOk(rules, value) then
      Verdict(false, Str(input), Some("invalid character"))
    else if !ValuesOk(rules, value) then
      Verdict(false, Str(input), Some("value not allowed"))
    else if rules.allowedTypes.Some? then
      CheckAllowedTypes(rules.allowedTypes.value, input, value, floatOf)
    else if rules.regex.Some? && !matches(rules.regex.value, value) then
      Verdict(false, Str(input), Some("regex not matched"))
    else
      Verdict(true, Str(input), None)
  }

  /** `validate(rules, value)`: the rules must be a dictionary, which the
      type of `rules` guarantees. */
  function Validate(rules: RuleSet, input: string, floatOf: FloatParser,
                    matches: (string, string) -> bool): (r: Verdict)
    ensures r.valid <==> r.error.None?
    ensures !r.valid ==> r.value == Str(input)
  {
    CheckRules(rules, input, floatOf, matches)
  }

  /** Soundness: an accepted input meets every length, character and
      membership rule; without a type list it also matches the pattern and
      comes back unchanged. */
  lemma ValidMeetsRules(rules: RuleSet, input: string, floatOf: FloatParser,
                        matches: (string, string) -> bool)
    requires Validate(rules, input, floatOf, matches).valid
    ensures var v := Subject(rules, input);
            LengthOk(rules, v) && CharsOk(rules, v) && ValuesOk(rules, v)
    ensures rules.allowedTypes.None? ==>
              Validate(rules, input, floatOf, matches).value == Str(input)
              && (rules.regex.None? || matches(rules.regex.value, Subject(rules, input)))
  {
  }

  /** Completeness: an input that meets every rule, with no type list, is
      accepted unchanged. */
  lemma RulesMetIsValid(rules: RuleSet, input: string, floatOf: FloatParser,
                        matches: (string, string) -> bool)
    requires var v := Subject(rules, input);
             LengthOk(rules, v) && CharsOk(rules, v) && ValuesOk(rules, v)
    requires rules.allowedTypes.None?
    requires rules.regex.None? || matches(rules.regex.value, Subject(rules, input))
    ensures Validate(rules, input, floatOf, matches) == Verdict(true, Str(input), None)
  {
  }

  /** The checks run in order: a length failure is reported before a bad
      character, and a bad character before a value outside the list. */
  lemma CheckOrder(rules: RuleSet, input: string, floatOf: FloatParser,
                   matches: (string, string) -> bool)
    ensures var v := Subject(rules, input);
            var e := Validate(rules, input, floatOf, matches).error;
            (!LengthOk(rules, v) ==> e == Some("too short") || e == Some("too long"))
            && (LengthOk(rules, v) && !CharsOk(rules, v) ==> e == Some("invalid character"))
            && (LengthOk(rules, v) && CharsOk(rules, v) && !ValuesOk(rules, v) ==> e == Some("value not allowed"))
  {
  }

  /** With "bool" allowed, only the boolean words are accepted, even if int
      or str are allowed too; anything else is an invalid value. */
  lemma BoolAllowedOnlyWords(rules: RuleSet, input: string, floatOf: FloatParser,
                             matches: (string, string) -> bool)
    requires Allows(rules, "bool")
    requires var v := Subject(rules, input); LengthOk(rules, v) && CharsOk(rules, v) && ValuesOk(rules, v)
    ensures var r := Validate(rules, input, floatOf, matches);
            var lower := Lower(Subject(rules, input));
            (lower in TrueWords ==> r == Verdict(true, Bool(true), None))
            && (lower !in TrueWords && lower in FalseWords ==> r == Verdict(true, Bool(false), None))
            && (!IsBoolWord(lower) ==> r == Verdict(false, Str(input), Some("invalid value")))
  {
  }

  /** Float is tried before int: since `float` accepts every string `int`
      accepts, an allowed float means no input ever comes back as an int. */
  lemma FloatBeforeInt(rules: RuleSet, input: string, floatOf: FloatParser,
                       matches: (string, string) -> bool)
    requires Allows(rules, "float") && !Allows(rules, "bool")
    requires var v := Subject(rules, input); ParseInt(v).Some? ==> floatOf(v).Some?
    ensures !Validate(rules, input, floatOf, matches).value.Int?
  {
  }

  /** Once the length, character and membership rules pass, a type list
      decides alone: the input is accepted exactly when the list accepts the
      text the rules look at, and the verdict is that of the type check. */
  lemma TypesDecide(rules: RuleSet, input: string, floatOf: FloatParser,
                    matches: (string, string) -> bool)
    requires var v := Subject(rules, input); LengthOk(rules, v) && CharsOk(rules, v) && ValuesOk(rules, v)
    requires rules.allowedTypes.Some?
    ensures var r := Validate(rules, input, floatOf, matches);
            r == CheckAllowedTypes(rules.allowedTypes.value, input, Subject(rules, input), floatOf)
            && (r.valid <==> TypesAccept(rules.allowedTypes.value, Subject(rules, input), floatOf))
  {
  }

  /** Acceptance in full: an input is accepted exactly when it meets the
      length, character and membership rules and then either the type list
      accepts it or, without a type list, the pattern (if any) matches. */
  lemma ValidIff(rules: RuleSet, input: string, floatOf: FloatParser,
                 matches: (string, string) -> bool)
    ensures var v := Subject(rules, input);
            Validate(rules, input, floatOf, matches).valid
            <==> LengthOk(rules, v) && CharsOk(rules, v) && ValuesOk(rules, v)
                 && (if rules.allowedTypes.Some? then TypesAccept(rules.allowedTypes.value, v, floatOf)
                     else rules.regex.None? || matches(rules.regex.value, v))
  {
  }

  /** A type list makes its outcome final: the pattern is never consulted. */
  lemma TypesAreFinal(rules: RuleSet, input: string, floatOf: FloatParser,
                      matches: (string, string) -> bool, other: (string, string) -> bool)
    requires rules.allowedTypes.Some?
    ensures Validate(rules, input, floatOf, matches)
            == Validate(rules.(regex := None), input, floatOf, other)
  {
  }

  /** Without any rule, every input is valid and returned unchanged. */
  lemma NoRulesAcceptAll(input: string, floatOf: FloatParser, matches: (string, string) -> bool)
    ensures Validate(NoRules, input, floatOf, matches) == Verdict(true, Str(input), None)
  {
  }
}
