/** `MinimumDateValidatorAttribute`: the order date must not be earlier than a minimum date. */
module MinimumDateValidation {
  import opened Wrappers
  import opened Text
  import opened Calendar
  import opened Validation

  /** The default template "Order date should be greater than or equal to {0}", held as the text
      before its placeholder (in pieces short enough for the verifier to inspect). */
  const DefaultMessagePrefix := "Order date should be " + "greater than or equal to "
  const DefaultErrorMessage := DefaultMessagePrefix + "{0}"

  datatype MinimumDateValidator = MinimumDateValidator(
    minimumDate: DateTime,
    defaultErrorMessage: string,
    errorMessage: Option<string>)
  {
    /** `IsValid(value, context)` where `value` is the order date, or null: null gives no result,
        a date strictly before the minimum fails on "MemberName", the minimum itself and any later
        date succeed. */
    function IsValid(value: Option<DateTime>): (r: VResult)
      requires Valid(minimumDate)
      ensures r == NoResult <==> value.None?
      ensures r.Failure? <==> value.Some? && Before(value.value, minimumDate)
      ensures r == Success <==> value.Some? && !Before(value.value, minimumDate)
      ensures r.Failure? ==> r.memberNames == MemberNameOnly
    {
      match value
      case None => NoResult
      case Some(orderDate) =>
        if Before(orderDate, minimumDate) then
          Failure(Format(ChosenMessage(errorMessage, defaultErrorMessage), FormatIsoDate(minimumDate)), MemberNameOnly)
        else Success
    }
  }

  /** The parameterless constructor: `MinimumDate` keeps its default, `DateTime.MinValue`, so no
      date can fail. */
  function NewMinimumDateValidator(errorMessage: Option<string>): (v: MinimumDateValidator)
    ensures Valid(v.minimumDate) && v.errorMessage == errorMessage
    ensures forall d :: Valid(d) ==> v.IsValid(Some(d)) == Success
  {
    var v := MinimumDateValidator(MinValue, DefaultErrorMessage, errorMessage);
    assert forall d :: Valid(d) ==> !Before(d, MinValue) by {
      forall d | Valid(d) ensures !Before(d, MinValue) { MinValueIsLeast(d); }
    }
    v
  }

  /** The constructor taking a date string, given the date `Convert.ToDateTime` makes of it. The
      given date becomes the minimum, which itself passes. */
  function NewMinimumDateValidatorFrom(minimumDate: DateTime, errorMessage: Option<string>): (v: MinimumDateValidator)
    ensures v.minimumDate == minimumDate && v.errorMessage == errorMessage
    ensures Valid(minimumDate) ==> v.IsValid(Some(minimumDate)) == Success
  {
    BeforeTrichotomy(minimumDate, minimumDate);
    MinimumDateValidator(minimumDate, DefaultErrorMessage, errorMessage)
  }

  /** The failure names the minimum date as "yyyy-MM-dd" in the default sentence, or uses the custom
      message, and always carries the single member name "MemberName". */
  lemma MinimumDateFailure(v: MinimumDateValidator, orderDate: DateTime)
    requires Valid(v.minimumDate) && Before(orderDate, v.minimumDate)
    ensures v.IsValid(Some(orderDate)).memberNames == ["MemberName"]
    ensures v.errorMessage.Some? ==>
      v.IsValid(Some(orderDate)).message == Format(v.errorMessage.value, FormatIsoDate(v.minimumDate))
    ensures v.errorMessage.None? && v.defaultErrorMessage == DefaultErrorMessage ==>
      v.IsValid(Some(orderDate)).message == DefaultMessagePrefix + FormatIsoDate(v.minimumDate)
  {
    var p1, p2 := "Order date should be ", "greater than or equal to ";
    assert '{' !in p1 && '{' !in p2;
    assert '{' !in p1 + p2;
    assert DefaultErrorMessage == DefaultMessagePrefix + "{0}" + "";
    FormatOnePlaceholder(DefaultMessagePrefix, "", FormatIsoDate(v.minimumDate));
    assert DefaultMessagePrefix + FormatIsoDate(v.minimumDate) + "" == DefaultMessagePrefix + FormatIsoDate(v.minimumDate);
  }

  /** The order model's `[MinimumDateValidator("2000-01-01")]`: the last moment of 1999 fails,
      midnight of 2000-01-01 passes. */
  lemma OrderDateRule()
    ensures var v := NewMinimumDateValidatorFrom(Date(2000, 1, 1), None);
      && v.IsValid(Some(DateTime(1999, 12, 31, TicksPerDay - 1))).Failure?
      && v.IsValid(Some(Date(2000, 1, 1))) == Success
  {
  }
}
