/** `InvoicePriceValidatorAttribute`: the invoice price of an order must equal the total cost of
    its products. */
module InvoicePriceValidation {
  import opened Wrappers
  import opened Text
  import opened Validation
  import opened ECommerceModels

  /** The default template "Invoice price should be equal to the total cost of all products (i.e. {0})
      in the order.", held as the text before and after its placeholder (the prefix in pieces short
      enough for the verifier to inspect character by character). */
  const DefaultMessagePrefix := "Invoice price should be equal " + "to the total cost of all " + "products (i.e. "
  const DefaultMessageSuffix := ") in the order."
  const DefaultErrorMessage := DefaultMessagePrefix + "{0}" + DefaultMessageSuffix
  const NoProductsMessage := "No products found to validate invoice price."

  datatype InvoicePriceValidator = InvoicePriceValidator(defaultErrorMessage: string, errorMessage: Option<string>)

  /** The attribute as `[InvoicePriceValidator]` builds it, with an optional `ErrorMessage = ...`:
      a mismatch is reported with the custom template when one is set, the field's default otherwise. */
  function NewInvoicePriceValidator(errorMessage: Option<string>): (v: InvoicePriceValidator)
    ensures v.errorMessage == errorMessage
    ensures forall actualPrice, totalPrice :: totalPrice > 0 && actualPrice != totalPrice ==>
      Verdict(v, actualPrice, totalPrice) == Failure(
        Format(if errorMessage.Some? then errorMessage.value else DefaultErrorMessage, IntToString(totalPrice)),
        MemberNameOnly)
  {
    InvoicePriceValidator(DefaultErrorMessage, errorMessage)
  }

  /** The total cost: the sum of price times quantity over the products, in list order. Products
      within their range rules cost at least 1 each, so only an empty order has a total of zero
      or less. */
  function TotalPrice(products: seq<Product>): (total: int)
    ensures (forall i :: 0 <= i < |products| ==> InRange(products[i])) ==> total >= |products|
    decreases |products|
  {
    if products == [] then 0
    else
      var last := products[|products| - 1];
      CostAtLeastOne(last);
      TotalPrice(products[..|products| - 1]) + last.price * last.quantity
  }

  /** A product within its range rules costs at least 1. */
  lemma CostAtLeastOne(p: Product)
    ensures InRange(p) ==> p.price * p.quantity >= 1
  {
    if InRange(p) {
      assert p.price >= 1 && p.quantity >= 1;
    }
  }

  /** The `foreach` loop accumulating `totalPrice`. */
  method ComputeTotalPrice(products: seq<Product>) returns (totalPrice: int)
    ensures totalPrice == TotalPrice(products)
  {
    totalPrice := 0;
    var i := 0;
    while i < |products|
      invariant 0 <= i <= |products|
      invariant totalPrice == TotalPrice(products[..i])
    {
      assert products[..i + 1][..i] == products[..i];
      totalPrice := totalPrice + products[i].price * products[i].quantity;
      i := i + 1;
    }
    assert products[..i] == products;
  }

  /** What the validator decides once it has the invoice price and the computed total: success
      exactly when the total is positive and equals the invoice price, otherwise a failure on
      "MemberName". */
  function Verdict(v: InvoicePriceValidator, actualPrice: int, totalPrice: int): (r: VResult)
    ensures r == Success <==> totalPrice > 0 && actualPrice == totalPrice
    ensures r != Success ==> r.Failure? && r.memberNames == MemberNameOnly
  {
    if totalPrice > 0 then
      if actualPrice != totalPrice then
        Failure(Format(ChosenMessage(v.errorMessage, v.defaultErrorMessage), IntToString(totalPrice)), MemberNameOnly)
      else Success
    else Failure(NoProductsMessage, MemberNameOnly)
  }

  /** `IsValid(value, context)`: `value` is the invoice price (or null) and `products` is what
      reflection finds on the validated object: its `Products` list, or nothing when the object
      has no such property. */
  method IsValid(v: InvoicePriceValidator, value: Option<int>, products: Option<seq<Product>>) returns (r: VResult)
    ensures value.None? || products.None? ==> r == NoResult
    ensures value.Some? && products.Some? ==> r == Verdict(v, value.value, TotalPrice(products.value))
  {
    r := NoResult;
    if value.Some? {
      if products.Some? {
        var totalPrice := ComputeTotalPrice(products.value);
        r := Verdict(v, value.value, totalPrice);
      }
    }
  }

  /** The total of a concatenation is the sum of the totals. */
  lemma {:induction false} TotalPriceAppend(a: seq<Product>, b: seq<Product>)
    ensures TotalPrice(a + b) == TotalPrice(a) + TotalPrice(b)
    decreases |b|
  {
    if b == [] {
      assert a + b == a;
    } else {
      assert (a + b)[..|a + b| - 1] == a + b[..|b| - 1];
      TotalPriceAppend(a, b[..|b| - 1]);
    }
  }

  /** A total of zero or less fails with the "no products" message whatever the invoice says;
      an empty order is such a case. */
  lemma NonPositiveTotal(v: InvoicePriceValidator, actualPrice: int, totalPrice: int)
    requires totalPrice <= 0
    ensures Verdict(v, actualPrice, totalPrice) == Failure(NoProductsMessage, ["MemberName"])
    ensures TotalPrice([]) == 0
  {
  }

  /** A positive total succeeds exactly when the invoice price equals it; a mismatch fails with the
      template formatted with the total. */
  lemma PositiveTotal(v: InvoicePriceValidator, actualPrice: int, totalPrice: int)
    requires totalPrice > 0
    ensures Verdict(v, actualPrice, totalPrice) == Success <==> actualPrice == totalPrice
    ensures actualPrice != totalPrice ==> (Verdict(v, actualPrice, totalPrice) ==
      Failure(Format(if v.errorMessage.Some? then v.errorMessage.value else v.defaultErrorMessage, IntToString(totalPrice)), ["MemberName"]))
  {
  }

  /** With no custom message, a mismatch reports the total in the default sentence. */
  lemma DefaultMismatchMessage(actualPrice: int, totalPrice: int)
    requires totalPrice > 0 && actualPrice != totalPrice
    ensures Verdict(NewInvoicePriceValidator(None), actualPrice, totalPrice).message ==
      DefaultMessagePrefix + IntToString(totalPrice) + DefaultMessageSuffix
  {
    var p1, p2, p3 := "Invoice price should be equal ", "to the total cost of all ", "products (i.e. ";
    assert '{' !in p1 && '{' !in p2 && '{' !in p3 && '{' !in DefaultMessageSuffix;
    assert '{' !in p1 + p2 + p3;
    FormatOnePlaceholder(DefaultMessagePrefix, DefaultMessageSuffix, IntToString(totalPrice));
  }
}
