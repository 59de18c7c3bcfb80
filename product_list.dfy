/** `ProductListValidatorAttribute`: an order must list at least one product. */
module ProductListValidation {
  import opened Wrappers
  import opened Validation
  import opened ECommerceModels

  const DefaultErrorMessage := "Order should have at least one product"

  datatype ProductListValidator = ProductListValidator(defaultErrorMessage: string, errorMessage: Option<string>) {

    /** `IsValid(value, context)` where `value` is the order's product list, or null: null gives
        no result, an empty list fails on "MemberName", any other list succeeds. */
    function IsValid(value: Option<seq<Product>>): (r: VResult)
      ensures r == NoResult <==> value.None?
      ensures r.Failure? <==> value == Some([])
      ensures r == Success <==> value.Some? && |value.value| > 0
      ensures r.Failure? ==> r.memberNames == MemberNameOnly
    {
      match value
      case None => NoResult
      case Some(products) =>
        if |products| == 0 then Failure(ChosenMessage(errorMessage, defaultErrorMessage), MemberNameOnly)
        else Success
    }
  }

  /** The attribute as `[ProductListValidator]` builds it, with an optional `ErrorMessage = ...`:
      every failure it reports carries the custom message when one is set, the field's default
      otherwise. */
  function NewProductListValidator(errorMessage: Option<string>): (v: ProductListValidator)
    ensures v.errorMessage == errorMessage
    ensures forall value :: v.IsValid(value).Failure? ==>
      v.IsValid(value).message == if errorMessage.Some? then errorMessage.value else DefaultErrorMessage
  {
    ProductListValidator(DefaultErrorMessage, errorMessage)
  }

  /** The failure carries the custom message when one is set, the default otherwise, and always
      the single member name "MemberName". */
  lemma ProductListFailure(errorMessage: Option<string>)
    ensures NewProductListValidator(errorMessage).IsValid(Some([])) ==
      Failure(if errorMessage.Some? then errorMessage.value else "Order should have at least one product", ["MemberName"])
  {
  }

  /** Only the number of products matters, not what they are. */
  lemma ProductListDependsOnCount(v: ProductListValidator, a: seq<Product>, b: seq<Product>)
    requires |a| == |b|
    ensures v.IsValid(Some(a)) == v.IsValid(Some(b))
  {
  }
}
