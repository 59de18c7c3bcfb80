/** What a `ValidationAttribute.IsValid` override returns, and the pieces every custom validator shares. */
module Validation {
  import opened Wrappers

  /** `null`, `ValidationResult.Success`, or a `ValidationResult` with a message and member names.
      The framework treats the first two alike (the value is valid); they are kept apart here
      because the validators return them on different paths. */
  datatype VResult = NoResult | Success | Failure(message: string, memberNames: seq<string>)

  /** `new string[] { nameof(validationContext.MemberName) }`: `nameof` yields the literal name
      of the property, not the member being validated. */
  const MemberNameOnly: seq<string> := ["MemberName"]

  /** `ErrorMessage ?? DefaultErrorMessage`: the custom message set on the attribute, if any. */
  function ChosenMessage(errorMessage: Option<string>, defaultErrorMessage: string): string {
    errorMessage.GetOr(defaultErrorMessage)
  }
}
