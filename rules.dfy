/** What the two input checkers share: the rule set a caller gives them, the
    typed values they produce and the verdict they return. */
module Rules {
  import opened Common

  /** A converted input: Python's bool, int, float or str. */
  datatype Value = Bool(b: bool) | Int(i: int) | Float(x: real) | Str(s: string)

  /** The keys of a rules dictionary; None (or false) for an absent key.
      `noStrip` and `regex` are read by `Validator` only, `min` and `max` by
      `Value` only. */
  datatype RuleSet = RuleSet(
    noStrip: bool,
    minLength: Option<int>,
    maxLength: Option<int>,
    allowedChars: Option<string>,
    allowedValues: Option<seq<string>>,
    allowedTypes: Option<seq<string>>,
    regex: Option<string>,
    min: Option<real>,
    max: Option<real>)

  /** A dictionary with no key at all. */
  const NoRules := RuleSet(false, None, None, None, None, None, None, None, None)

  /** `(valid, value, error)`. */
  datatype Verdict = Verdict(valid: bool, value: Value, error: Option<string>)

  /** `float(s)`, which the model does not define: the caller supplies it.
      Like every Python parser it may reject a string. */
  type FloatParser = string -> Option<real>

  /** The words accepted as True and as False, compared in lower case. */
  const TrueWords: seq<string> := ["true", "1", "yes", "y"]
  const FalseWords: seq<string> := ["false", "0", "no", "n"]

  predicate IsBoolWord(lower: string) {
    lower in TrueWords || lower in FalseWords
  }

  /** Every character of `s` is one of `chars` (the `allowed_chars` loop). */
  predicate AllIn(s: string, chars: string) {
    forall i :: 0 <= i < |s| ==> s[i] in chars
  }

  /** The conforming-length, charset and membership rules, as a reader of the
      rules would state them. */
  predicate LengthOk(rules: RuleSet, v: string) {
    (rules.minLength.None? || |v| >= rules.minLength.value)
    && (rules.maxLength.None? || |v| <= rules.maxLength.value)
  }

  predicate CharsOk(rules: RuleSet, v: string) {
    rules.allowedChars.None? || AllIn(v, rules.allowedChars.value)
  }

  predicate ValuesOk(rules: RuleSet, v: string) {
    rules.allowedValues.None? || v in rules.allowedValues.value
  }

  /** Whether the type list names the type. */
  predicate Allows(rules: RuleSet, typeName: string) {
    rules.allowedTypes.Some? && typeName in rules.allowedTypes.value
  }
}
