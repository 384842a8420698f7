/** The answer box shown on `input` nodes (src/components/Chat/InputField.tsx): it keeps the typed
    value and an error line, and hands a value to the dialog only when it passes the check. */
module InputField {
  import opened Wrappers
  import opened Strings
  import opened Types

  /** A field is an amount field when its name contains `Amount`; the test is case-sensitive, so
      a field named `amount` is not an amount. */
  predicate IsAmountName(field: string) {
    Contains(field, "Amount")
  }

  /** The digits of the value, read as a decimal number, are above 0: at least one digit, and
      the digits read as a positive number. Signs and separators are stripped with everything else. */
  predicate PositiveAmount(value: string) {
    ParseDigits(value).Some? && ParseDigits(value).value > 0
  }

  function EmptyError(language: Language): string {
    if language == Ja then "入力してください" else "Please enter a value"
  }

  function AmountError(language: Language): string {
    if language == Ja then "正しい金額を入力してください" else "Please enter a valid amount"
  }

  /** The decision `handleSubmit` takes: the error to show, or the raw value for `onSubmit`. */
  function Validate(field: string, language: Language, value: string): (r: Result<string, string>)
    ensures r.Ok? ==> r.value == value && Trim(value) != [] && (IsAmountName(field) ==> PositiveAmount(value))
    ensures r.Err? ==> r.error == EmptyError(language) || r.error == AmountError(language)
    ensures r.Err? ==> (r.error == EmptyError(language) <==> Trim(value) == [])
  {
    if Trim(value) == [] then Err(EmptyError(language))
    else if IsAmountName(field) && !PositiveAmount(value) then Err(AmountError(language))
    else Ok(value)
  }

  /** A value is handed on exactly when it holds a non-whitespace character and, in an amount
      box, a positive number; what is handed on is the value as typed. There is no upper bound. */
  lemma ValidateAccepts(field: string, language: Language, value: string)
    ensures Validate(field, language, value).Ok?
        <==> (exists i :: 0 <= i < |value| && !IsWhitespace(value[i]))
             && (IsAmountName(field) ==> PositiveAmount(value))
    ensures Validate(field, language, value).Ok? ==> Validate(field, language, value).value == value
  {
    TrimEmptyIffBlank(value);
  }

  /** A leading minus sign is stripped with the other non-digits, so a negative amount passes
      the amount check unchanged. */
  lemma NegativeAmountPasses(field: string, language: Language, digits: string)
    requires AllDigits(digits) && digits != [] && DecimalValue(digits) > 0
    ensures Validate(field, language, "-" + digits) == Ok("-" + digits)
  {
    SignStripped(digits);
    NonBlankStart("-" + digits);
  }

  lemma SignStripped(digits: string)
    requires AllDigits(digits)
    ensures DigitsOnly("-" + digits) == digits
  {
    var v := "-" + digits;
    DigitsOnlyOfDigits(digits);
    assert v[1..] == digits;
  }

  /** A string that starts with a non-whitespace character is not blank. */
  lemma NonBlankStart(v: string)
    requires v != [] && !IsWhitespace(v[0])
    ensures Trim(v) != []
  {
    assert TrimStart(v) == v;
    TrimEndNonEmpty(v);
  }

  lemma {:induction false} DigitsOnlyOfDigits(s: string)
    requires AllDigits(s)
    ensures DigitsOnly(s) == s
  {
    if s != [] {
      DigitsOnlyOfDigits(s[1..]);
    }
  }

  /** The box itself: the `value` and `error` state of the component. */
  class Field {
    const field: string
    const language: Language
    var value: string
    var error: string

    constructor(field: string, language: Language)
      ensures this.field == field && this.language == language
      ensures value == "" && error == ""
    {
      this.field := field;
      this.language := language;
      value := "";
      error := "";
    }

    /** `handleSubmit`: returns what `onSubmit` receives, if it is called. */
    method HandleSubmit() returns (submitted: Option<string>)
      modifies this
      ensures value == old(value)
      ensures Validate(field, language, value).Ok? ==> submitted == Some(value) && error == ""
      ensures Validate(field, language, value).Err? ==>
        submitted == None && error == Validate(field, language, value).error
    {
      if Trim(value) == [] {
        error := EmptyError(language);
        submitted := None;
        return;
      }
      if IsAmountName(field) {
        var numValue := ParseDigits(value);
        if numValue.None? || numValue.value <= 0 {
          error := AmountError(language);
          submitted := None;
          return;
        }
      }
      error := "";
      submitted := Some(value);
    }

    /** `handleInputChange`: any edit replaces the value and clears the error. */
    method HandleInputChange(newValue: string)
      modifies this
      ensures value == newValue && error == ""
    {
      value := newValue;
      error := "";
    }
  }
}
