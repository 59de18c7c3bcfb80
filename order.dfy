/** eCommerceAppExercise's order action: report every validation error of the bound order, or
    accept it under a randomly drawn order number. */
module OrderEndpoint {
  import opened Text

  /** One value of `ModelState`: the messages of its errors, in the order they were added. */
  datatype ModelStateEntry = ModelStateEntry(errors: seq<string>)

  /** `ModelState.Values`, in enumeration order. */
  type ModelState = seq<ModelStateEntry>

  /** `ModelState.IsValid`: no entry carries an error, that is, there is no message to report. */
  predicate IsValid(modelState: ModelState): (b: bool)
    ensures b <==> ErrorMessages(modelState) == []
  {
    forall i :: 0 <= i < |modelState| ==> modelState[i].errors == []
  }

  /** `ModelState.Values.SelectMany(value => value.Errors).Select(err => err.ErrorMessage).ToList()`.
      The list is empty exactly when no entry carries an error. */
  function ErrorMessages(modelState: ModelState): (r: seq<string>)
    ensures r == [] <==> forall i :: 0 <= i < |modelState| ==> modelState[i].errors == []
    decreases |modelState|
  {
    if modelState == [] then []
    else
      assert forall i :: 0 < i < |modelState| ==> modelState[i] == modelState[1..][i - 1];
      modelState[0].errors + ErrorMessages(modelState[1..])
  }

  datatype OrderResult = BadRequest(body: string) | Json(orderNumber: int)

  /** `Random.Next(minValue, maxValue)`: some integer from `minValue` up to but excluding
      `maxValue`, or `minValue` itself when the two are equal. Which one is not determined. */
  method RandomNext(minValue: int, maxValue: int) returns (r: int)
    requires minValue <= maxValue
    ensures minValue == maxValue ==> r == minValue
    ensures minValue < maxValue ==> minValue <= r < maxValue
  {
    if minValue == maxValue {
      r := minValue;
    } else {
      r :| minValue <= r < maxValue;
    }
  }

  /** The "/order" action. */
  method Order(modelState: ModelState) returns (r: OrderResult)
    ensures r.BadRequest? <==> !IsValid(modelState)
    ensures r.BadRequest? ==> r.body == Join("\n", ErrorMessages(modelState))
    ensures r.Json? ==> 1 <= r.orderNumber <= 99998
  {
    if !IsValid(modelState) {
      var errorList := ErrorMessages(modelState);
      var errors := Join("\n", errorList);
      return BadRequest(errors);
    }
    var orderNo := RandomNext(1, 99999);
    return Json(orderNo);
  }

  /** Messages of earlier entries come first: flattening distributes over concatenation, ... */
  lemma {:induction false} ErrorMessagesAppend(a: ModelState, b: ModelState)
    ensures ErrorMessages(a + b) == ErrorMessages(a) + ErrorMessages(b)
    decreases |a|
  {
    if a == [] {
      assert a + b == b;
    } else {
      assert (a + b)[0] == a[0];
      assert (a + b)[1..] == a[1..] + b;
      assert ErrorMessages(a + b) == a[0].errors + ErrorMessages(a[1..] + b);
      ErrorMessagesAppend(a[1..], b);
      assert ErrorMessages(a) == a[0].errors + ErrorMessages(a[1..]);
    }
  }

  /** ... and a single entry contributes its own messages in their own order. */
  lemma ErrorMessagesSingle(e: ModelStateEntry)
    ensures ErrorMessages([e]) == e.errors
  {
    assert [e][1..] == [];
  }

  /** Nothing is dropped or added: a message is listed exactly when some entry carries it. */
  lemma {:induction false} ErrorMessagesMembership(modelState: ModelState, m: string)
    ensures m in ErrorMessages(modelState) <==> exists i :: 0 <= i < |modelState| && m in modelState[i].errors
    decreases |modelState|
  {
    if modelState != [] {
      ErrorMessagesMembership(modelState[1..], m);
      assert forall i :: 0 < i < |modelState| ==> modelState[i] == modelState[1..][i - 1];
      if m in ErrorMessages(modelState[1..]) {
        var i :| 0 <= i < |modelState[1..]| && m in modelState[1..][i].errors;
        assert m in modelState[i + 1].errors;
      }
    }
  }

  /** The number of errors over all entries. */
  function ErrorCount(modelState: ModelState): nat
    decreases |modelState|
  {
    if modelState == [] then 0 else |modelState[0].errors| + ErrorCount(modelState[1..])
  }

  lemma {:induction false} ErrorMessagesLength(modelState: ModelState)
    ensures |ErrorMessages(modelState)| == ErrorCount(modelState)
    decreases |modelState|
  {
    if modelState != [] {
      ErrorMessagesLength(modelState[1..]);
    }
  }

  /** For messages without line breaks, the 400 body has n - 1 line breaks for n messages and splits
      back into exactly the messages. */
  lemma BadRequestBody(modelState: ModelState)
    requires !IsValid(modelState)
    requires NoneContains(ErrorMessages(modelState), '\n')
    ensures Count('\n', Join("\n", ErrorMessages(modelState))) == |ErrorMessages(modelState)| - 1
    ensures Split(Join("\n", ErrorMessages(modelState)), '\n') == ErrorMessages(modelState)
  {
    assert "\n" == ['\n'];
    JoinSeparatorCount('\n', ErrorMessages(modelState));
    SplitJoin('\n', ErrorMessages(modelState));
  }
}
