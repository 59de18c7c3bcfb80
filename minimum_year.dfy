/** `MinimumYearValidatorAttribute` of ModelValidationsExample. Despite its name it accepts only
    years BELOW `MinimumYear`, as its message says. */
module MinimumYearValidation {
  import opened Wrappers
  import opened Text
  import opened Calendar
  import opened Validation

  const DefaultMinimumYear := 200
  /** The default template "Year should be less than {0}", held as the text before its placeholder. */
  const DefaultMessagePrefix := "Year should be less than "
  const DefaultErrorMessage := DefaultMessagePrefix + "{0}"

  datatype MinimumYearValidator = MinimumYearValidator(
    minimumYear: int,
    defaultErrorMessage: string,
    errorMessage: Option<string>)
  {
    /** `IsValid(value, context)` where `value` is the date, or null: null gives no result, a year
        at or above the threshold fails, a year below it succeeds. A failure carries no member names. */
    function IsValid(value: Option<DateTime>): (r: VResult)
      ensures r == NoResult <==> value.None?
      ensures r.Failure? <==> value.Some? && value.value.year >= minimumYear
      ensures r == Success <==> value.Some? && value.value.year < minimumYear
      ensures r.Failure? ==> r.memberNames == []
    {
      match value
      case None => NoResult
      case Some(date) =>
        if date.year >= minimumYear then
          Failure(Format(ChosenMessage(errorMessage, defaultErrorMessage), IntToString(minimumYear)), [])
        else Success
    }
  }

  /** The parameterless constructor: `MinimumYear` keeps its initial value 200, so years from 200
      on fail. */
  function NewMinimumYearValidator(errorMessage: Option<string>): (v: MinimumYearValidator)
    ensures v.errorMessage == errorMessage
    ensures forall d: DateTime :: v.IsValid(Some(d)).Failure? <==> d.year >= 200
  {
    MinimumYearValidator(DefaultMinimumYear, DefaultErrorMessage, errorMessage)
  }

  /** The constructor taking the year, which becomes the threshold. */
  function NewMinimumYearValidatorWith(minimumYear: int, errorMessage: Option<string>): (v: MinimumYearValidator)
    ensures v.errorMessage == errorMessage
    ensures forall d: DateTime :: v.IsValid(Some(d)).Failure? <==> d.year >= minimumYear
  {
    MinimumYearValidator(minimumYear, DefaultErrorMessage, errorMessage)
  }

  /** With no custom message the failure reads "Year should be less than" and the threshold. */
  lemma MinimumYearDefaultMessage(minimumYear: int, date: DateTime)
    requires date.year >= minimumYear
    ensures NewMinimumYearValidatorWith(minimumYear, None).IsValid(Some(date)) ==
      Failure(DefaultMessagePrefix + IntToString(minimumYear), [])
  {
    assert '{' !in DefaultMessagePrefix;
    assert DefaultErrorMessage == DefaultMessagePrefix + "{0}" + "";
    FormatOnePlaceholder(DefaultMessagePrefix, "", IntToString(minimumYear));
    assert DefaultMessagePrefix + IntToString(minimumYear) + "" == DefaultMessagePrefix + IntToString(minimumYear);
  }

  /** A custom `ErrorMessage` replaces the default template: the failure is that message with the
      threshold in place of its `{0}`, and no member names. */
  lemma MinimumYearCustomMessage(v: MinimumYearValidator, date: DateTime, m: string)
    requires v.errorMessage == Some(m) && date.year >= v.minimumYear
    ensures v.IsValid(Some(date)) == Failure(Format(m, IntToString(v.minimumYear)), [])
  {
  }

  /** The person model's `[MinimumYearValidator(2005)]`: born in 2004 passes, born in 2005 fails. */
  lemma DateOfBirthRule()
    ensures NewMinimumYearValidatorWith(2005, None).IsValid(Some(Date(2004, 6, 1))) == Success
    ensures NewMinimumYearValidatorWith(2005, None).IsValid(Some(Date(2005, 1, 1))).Failure?
  {
  }
}
