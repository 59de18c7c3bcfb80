# ASP.NET Core teaching apps: request handlers and validators in Dafny

The repository is a set of unrelated ASP.NET Core teaching apps. This project models the small
decision logic inside several of them.

- **LoginExercise.** A middleware lets only POST requests through. It is followed by a terminal
  middleware. That middleware checks the posted `email`/`password` form fields, sets the status
  and writes the messages.
- **CountryExercise.** A fixed table of five countries. One endpoint lists the table. Another
  classifies a country id into 200, 404 or 400.
- **IActionResultExample.** The `book` action: a chain of guards over `bookid` and `isloggedin`.
  The first guard that fails decides the result.
- **WeatherAppExercise.** The index page's fixed city list, and the city page's first-match
  lookup by city code.
- **eCommerceAppExercise and ModelValidationsExample.** Four custom `ValidationAttribute`s:
  - non-empty product list;
  - invoice price equal to the products' total;
  - minimum order date;
  - the "minimum year" check, which accepts only years below its threshold.
- **eCommerceAppExercise's order action.** It flattens all model-state errors and joins them
  with `"\n"`, or it draws an order number.

State that the source changes in place is modelled imperatively. The HTTP response is a class
`Http.HttpResponse` with a `statusCode` and the sequence of `written` chunks. The login
middlewares and the country listing are methods that update it. The listing loop and the
invoice total loop carry invariants. `OrderEndpoint.Order` and `OrderEndpoint.RandomNext` are
methods because the draw is nondeterministic, and `InvoicePriceValidation.IsValid` is a method
because it runs the total loop. Everything else is functions over datatypes, plus lemmas that
state what the source promises.

These inputs arrive already parsed:

- the request body, as a `map<string, string>` form;
- the route's integer country id;
- `Convert.ToInt16` of `bookid`, as an `int` that must lie in the 16-bit range;
- `Convert.ToBoolean` of `isloggedin`, as a `bool` that is false when absent;
- dates, as `Calendar.DateTime` values.

`ValidationAttribute.ErrorMessage` is an `Option<string>`. A validator's `IsValid` yields
`NoResult` for `null`, `Success` for `ValidationResult.Success`, or `Failure(message, memberNames)`.

The model uses some concrete texts:

- `string.Format` replaces each `{0}` with its argument.
- Numbers print in decimal.
- Dates print as "yyyy-MM-dd" with zero padding.

The default messages therefore have concrete text. Lemmas and contracts prove that the
formatting loses nothing. A rendered integer, negative or not, reads back as itself. A
formatted date reads back as its year, month and day.

## Model

| member | source | states |
|---|---|---|
| LoginMiddlewares.CheckHttpMethod | LoginExercise/LoginExercise/Middlewares/CheckHttpMethod.cs:12-22 | next is invoked exactly for method "POST" (case-sensitive); otherwise status becomes 200; in neither branch is anything written; on POST the gate leaves the status as it was |
| LoginMiddlewares.CheckLogin | LoginExercise/LoginExercise/Middlewares/CheckLogin.cs:15-56 | the body gains exactly the missing-key messages then the credential message, and the status is the last one assigned; the stage is terminal and never invokes next |
| LoginMiddlewares.RunLoginApp | LoginExercise/LoginExercise/Program.cs:6-7 | in the composed pipeline the credential check runs exactly for POST requests; any other request ends with status 200, nothing written, and never reaches the check |
| LoginMiddlewares.ServeLoginRequest | LoginExercise/LoginExercise/Program.cs:3-9 | a request served from a fresh response: a POST ends with exactly the login check's messages and its status computed from 200; any other method ends with 200 and an empty body |
| Http.HttpResponse.constructor | LoginExercise/LoginExercise/Program.cs:3-9 | the response the host hands to the pipeline starts with status 200 and an empty body |
| Http.HttpResponse.WriteAsync | LoginExercise/LoginExercise/Middlewares/CheckLogin.cs:30 | `Response.WriteAsync(text)` appends text as the next chunk of the body and leaves the status code unchanged |
| LoginMiddlewares.MissingEmail | LoginExercise/LoginExercise/Middlewares/CheckLogin.cs:23-31 | no "email" key: status 400, the first message is "Invalid input for 'email'\n", no credential message |
| LoginMiddlewares.MissingPassword | LoginExercise/LoginExercise/Middlewares/CheckLogin.cs:33-41 | no "password" key: status 400 and "Invalid input for 'password'\n" written, after the email message if that key is missing too |
| LoginMiddlewares.BothMissing | LoginExercise/LoginExercise/Middlewares/CheckLogin.cs:23-41 | both keys missing: both messages, email first, with no short-circuit; status 400 |
| LoginMiddlewares.AdminLogin | LoginExercise/LoginExercise/Middlewares/CheckLogin.cs:43-49 | "admin@example.com"/"admin1234": status 200 and only "Successful login" |
| LoginMiddlewares.WrongCredentials | LoginExercise/LoginExercise/Middlewares/CheckLogin.cs:50-54 | any other pair of non-empty values: status 401 and only "Invalid Login" |
| LoginMiddlewares.MissingExcludesCredentials | LoginExercise/LoginExercise/Middlewares/CheckLogin.cs:17-43 | a missing-key message and a credential message never both appear; a credential message needs both keys present |
| LoginMiddlewares.EmptyValueHasNoEffect | LoginExercise/LoginExercise/Middlewares/CheckLogin.cs:23-43 | both keys present but one value empty: nothing written and the status unchanged |
| LoginMiddlewares.LoginStatusCases | LoginExercise/LoginExercise/Middlewares/CheckLogin.cs:15-56 | final status is 200 iff the admin pair was posted or it was already 200 and nothing was checked; 400 iff a key is missing or it was already 400 and nothing was checked |
| CountryExercise.Lookup | CountryExercise/CountryExercise/Program.cs:31 | the dictionary indexer: a value is found iff some entry has the key, and then it is that entry's value |
| CountryExercise.CountriesTable | CountryExercise/CountryExercise/Program.cs:8-14 | the table has exactly the keys 1..5, mapped to United States, Canada, United Kingdom, India and Japan |
| CountryExercise.ListCountries | CountryExercise/CountryExercise/Program.cs:16-22 | the listing endpoint appends exactly the listing lines of the table, in table order, and leaves the status alone |
| CountryExercise.ListingLength | CountryExercise/CountryExercise/Program.cs:18-21 | the listing has one line per table entry |
| CountryExercise.ListingLineAt | CountryExercise/CountryExercise/Program.cs:18-21 | line k of the listing is "key, value\n" for entry k |
| CountryExercise.ListingLine | CountryExercise/CountryExercise/Program.cs:20 | one listing line per entry; it has no contract of its own, and what it produces is stated by `ListingLineShape` and `CountryLines` |
| CountryExercise.ListingLineShape | CountryExercise/CountryExercise/Program.cs:20 | `ListingLine` (the interpolation `$"{item.Key}, {item.Value}\n"`): the line opens with the rendered key and ", ", holds the name after that and ends with a newline, and the text before the separator parses back to the key |
| CountryExercise.ListingLinesExtend | CountryExercise/CountryExercise/Program.cs:18-21 | each pass of the `foreach` appends the current entry's line after the lines already written |
| CountryExercise.CountriesListing | CountryExercise/CountryExercise/Program.cs:8-21 | the listing body is exactly "1, United States\n" through "5, Japan\n", in table order |
| CountryExercise.CountryLines | CountryExercise/CountryExercise/Program.cs:8-20 | each of the five entries is listed as its key, ", ", its name and a newline |
| CountryExercise.KnownCountry | CountryExercise/CountryExercise/Program.cs:28-32 | id 1..5: status 200 and the body is that id's country name from the table; the lookup cannot fail |
| CountryExercise.UnknownCountry | CountryExercise/CountryExercise/Program.cs:33-37 | id 6..100: status 404 and body "[No country]" |
| CountryExercise.OutOfRange | CountryExercise/CountryExercise/Program.cs:38-42 | id <= 0 or >= 101: status 400 and "The CountryID should be between 1 and 100" |
| CountryExercise.CountryById | CountryExercise/CountryExercise/Program.cs:24-43 | the status is 200, 404 or 400; 200 iff the id is a key of the table, and then the body is that key's name; 404 iff the id is in 6..100 |
| BookEndpoint.MissingBookId | IActionResultExample/IActionResultExample/Controllers/HomeController.cs:10-15 | no "bookid": 400 "Book id not supplied", whatever the other inputs |
| BookEndpoint.EmptyBookId | IActionResultExample/IActionResultExample/Controllers/HomeController.cs:17-22 | empty "bookid": 400 "Book id cannot be null or empty" |
| BookEndpoint.NonPositiveBookId | IActionResultExample/IActionResultExample/Controllers/HomeController.cs:24-30 | parsed id <= 0: 400 with the "less than or equal to zero" message |
| BookEndpoint.LargeBookId | IActionResultExample/IActionResultExample/Controllers/HomeController.cs:31-36 | parsed id > 1000: 404 NotFound, not 400 |
| BookEndpoint.NotLoggedIn | IActionResultExample/IActionResultExample/Controllers/HomeController.cs:38-43 | id in 1..1000 without a true "isloggedin": 401 "User must be authenticated" |
| BookEndpoint.Index | IActionResultExample/IActionResultExample/Controllers/HomeController.cs:8-46 | the picture "/dog.png" ("image/png") is returned iff bookid is present, non-empty, in 1..1000 and the user is logged in; 400 iff bookid is missing, empty or <= 0; 404 iff the id is above 1000; status 200 only for the picture |
| BookEndpoint.FirstFailingGuardDecides | IActionResultExample/IActionResultExample/Controllers/HomeController.cs:10-45 | guards are checked in source order: a failing early guard makes later inputs irrelevant |
| WeatherApp.FirstWithCode | WeatherAppExercise/WeatherAppExercise/Controllers/HomeController.cs:38 | `Where(...).FirstOrDefault()`: null iff no entry has the code (ordinal equality, never equal to null); otherwise the first entry that has it |
| WeatherApp.CityList | WeatherAppExercise/WeatherAppExercise/Controllers/HomeController.cs:30-36 | the list searched holds LDN/London/33, NYC/"New York City"/60 and PAR/Paris/82 in that order, each with a valid date |
| WeatherApp.Index | WeatherAppExercise/WeatherAppExercise/Controllers/HomeController.cs:9-20 | the index model is three entries, LDN, NYC, PAR in that order, at 33, 60 and 82 degrees Fahrenheit, with valid dates |
| WeatherApp.CodesDistinct | WeatherAppExercise/WeatherAppExercise/Controllers/HomeController.cs:30-36 | the city codes of the searched list are pairwise distinct |
| WeatherApp.ListsDifferOnlyInNewYorksName | WeatherAppExercise/WeatherAppExercise/Controllers/HomeController.cs:11-36 | the two lists are equal except that NYC is "New York" in one and "New York City" in the other |
| WeatherApp.KnownCodes | WeatherAppExercise/WeatherAppExercise/Controllers/HomeController.cs:30-40 | LDN, NYC and PAR each find their own entry |
| WeatherApp.FoundCityIsUnique | WeatherAppExercise/WeatherAppExercise/Controllers/HomeController.cs:30-40 | a found city is the only entry of the searched list that has the requested code |
| WeatherApp.City | WeatherAppExercise/WeatherAppExercise/Controllers/HomeController.cs:23-41 | as written: a city is found iff the code is exactly LDN, NYC or PAR, and it is an entry of the searched list carrying that code; anything else, other-case spellings and null included, gives a null model |
| WeatherApp.NullCodeReachesView | WeatherAppExercise/WeatherAppExercise/Controllers/HomeController.cs:25-28 | as written, a null code reaches the view exactly as an unknown code does, while the corrected action rejects it |
| WeatherApp.CityChecked | WeatherAppExercise/WeatherAppExercise/Controllers/HomeController.cs:25-28 | corrected action: BadRequest "You must enter a city unique code to access the view" iff the code is null; otherwise a view whose model is found iff the code is LDN, NYC or PAR |
| WeatherApp.CityCheckedRejectsOnlyNull | WeatherAppExercise/WeatherAppExercise/Controllers/HomeController.cs:25-40 | the corrected action returns BadRequest exactly for a null code and otherwise the view of what the lookup finds |
| ProductListValidation.ProductListValidator.IsValid | eCommerceAppExercise/eCommerceAppExercise/CustomValidators/ProductListValidatorAttribute.cs:9-23 | null iff no result; Failure iff the list is empty; Success iff the list is non-empty; a failure names ["MemberName"] |
| ProductListValidation.ProductListFailure | eCommerceAppExercise/eCommerceAppExercise/CustomValidators/ProductListValidatorAttribute.cs:8-16 | the failure message is the custom ErrorMessage when set, else "Order should have at least one product"; members are ["MemberName"] |
| ProductListValidation.NewProductListValidator | eCommerceAppExercise/eCommerceAppExercise/CustomValidators/ProductListValidatorAttribute.cs:8-16 | the attribute keeps the given ErrorMessage, and every failure it reports carries that message when set, else the DefaultErrorMessage field |
| ProductListValidation.ProductListDependsOnCount | eCommerceAppExercise/eCommerceAppExercise/CustomValidators/ProductListValidatorAttribute.cs:13-14 | lists of equal length give the same outcome, whatever the products are |
| InvoicePriceValidation.ComputeTotalPrice | eCommerceAppExercise/eCommerceAppExercise/CustomValidators/InvoicePriceValidatorAttribute.cs:24-28 | the loop computes the sum over the products of price times quantity |
| InvoicePriceValidation.IsValid | eCommerceAppExercise/eCommerceAppExercise/CustomValidators/InvoicePriceValidatorAttribute.cs:15-48 | null value or no Products property: no result; otherwise the verdict on the invoice price against the computed total |
| InvoicePriceValidation.TotalPriceAppend | eCommerceAppExercise/eCommerceAppExercise/CustomValidators/InvoicePriceValidatorAttribute.cs:24-28 | the total of two lists of products joined is the sum of their totals |
| InvoicePriceValidation.TotalPrice | eCommerceAppExercise/eCommerceAppExercise/CustomValidators/InvoicePriceValidatorAttribute.cs:24-28 | products within their range rules give a total of at least their number, so only an empty order gives a total of zero or less |
| InvoicePriceValidation.NewInvoicePriceValidator | eCommerceAppExercise/eCommerceAppExercise/CustomValidators/InvoicePriceValidatorAttribute.cs:9-35 | the attribute keeps the given ErrorMessage; a positive total that differs from the invoice fails with that template (else the DefaultErrorMessage field) filled with the total, on ["MemberName"] |
| InvoicePriceValidation.Verdict | eCommerceAppExercise/eCommerceAppExercise/CustomValidators/InvoicePriceValidatorAttribute.cs:30-43 | Success iff the total is positive and equals the invoice price; every other outcome is a failure on ["MemberName"] |
| InvoicePriceValidation.NonPositiveTotal | eCommerceAppExercise/eCommerceAppExercise/CustomValidators/InvoicePriceValidatorAttribute.cs:38-41 | total <= 0, an empty list included, fails with "No products found to validate invoice price." and ["MemberName"], whatever the invoice says |
| InvoicePriceValidation.PositiveTotal | eCommerceAppExercise/eCommerceAppExercise/CustomValidators/InvoicePriceValidatorAttribute.cs:31-43 | total > 0: Success iff invoice == total; a mismatch fails with the custom or default template formatted with the total, members ["MemberName"] |
| InvoicePriceValidation.DefaultMismatchMessage | eCommerceAppExercise/eCommerceAppExercise/CustomValidators/InvoicePriceValidatorAttribute.cs:9-35 | with no custom message the failure reads "Invoice price should be equal to the total cost of all products (i.e. TOTAL) in the order." |
| MinimumDateValidation.MinimumDateValidator.IsValid | eCommerceAppExercise/eCommerceAppExercise/CustomValidators/MinimumDateValidatorAttribute.cs:19-33 | null iff no result; Failure iff strictly before MinimumDate; Success iff equal or later; a failure names ["MemberName"] |
| MinimumDateValidation.NewMinimumDateValidatorFrom | eCommerceAppExercise/eCommerceAppExercise/CustomValidators/MinimumDateValidatorAttribute.cs:14-17 | the given date becomes MinimumDate, and that date itself passes |
| MinimumDateValidation.MinimumDateFailure | eCommerceAppExercise/eCommerceAppExercise/CustomValidators/MinimumDateValidatorAttribute.cs:7-27 | the failure embeds MinimumDate as "yyyy-MM-dd" into the default sentence, or into the custom ErrorMessage; members ["MemberName"] |
| MinimumDateValidation.NewMinimumDateValidator | eCommerceAppExercise/eCommerceAppExercise/CustomValidators/MinimumDateValidatorAttribute.cs:8-12 | with the parameterless constructor MinimumDate is DateTime.MinValue and no valid date fails |
| MinimumDateValidation.OrderDateRule | eCommerceAppExercise/eCommerceAppExercise/CustomValidators/MinimumDateValidatorAttribute.cs:14-17 | with minimum 2000-01-01 the last tick of 1999 fails and midnight of 2000-01-01 passes |
| MinimumYearValidation.NewMinimumYearValidator | ModelValidationsExample/ModelValidationsExample/CustomValidators/MinimumYearValidatorAttribute.cs:7-11 | MinimumYear keeps its initial 200: a date fails iff its year is 200 or more |
| MinimumYearValidation.NewMinimumYearValidatorWith | ModelValidationsExample/ModelValidationsExample/CustomValidators/MinimumYearValidatorAttribute.cs:13-16 | the given year becomes the threshold: a date fails iff its year is that or more |
| MinimumYearValidation.MinimumYearValidator.IsValid | ModelValidationsExample/ModelValidationsExample/CustomValidators/MinimumYearValidatorAttribute.cs:17-31 | null iff no result; Failure iff year >= MinimumYear, despite the name; Success iff year < MinimumYear; a failure has no member names |
| MinimumYearValidation.MinimumYearDefaultMessage | ModelValidationsExample/ModelValidationsExample/CustomValidators/MinimumYearValidatorAttribute.cs:8-24 | with no custom message the failure is "Year should be less than N" for threshold N, with no member names |
| MinimumYearValidation.MinimumYearCustomMessage | ModelValidationsExample/ModelValidationsExample/CustomValidators/MinimumYearValidatorAttribute.cs:22-25 | with a custom ErrorMessage, a year at or above the threshold fails with that message, threshold in place of {0}, and no member names |
| MinimumYearValidation.DateOfBirthRule | ModelValidationsExample/ModelValidationsExample/CustomValidators/MinimumYearValidatorAttribute.cs:13-25 | with threshold 2005 a date in 2004 passes and one in 2005 fails |
| OrderEndpoint.Order | eCommerceAppExercise/eCommerceAppExercise/Controllers/HomeController.cs:9-23 | BadRequest iff the model state is invalid, with body all error messages joined by "\n"; otherwise Json with order number in 1..99998; never both |
| OrderEndpoint.RandomNext | eCommerceAppExercise/eCommerceAppExercise/Controllers/HomeController.cs:19-20 | the draw lies from the lower bound up to but excluding the upper bound |
| OrderEndpoint.ErrorMessagesAppend | eCommerceAppExercise/eCommerceAppExercise/Controllers/HomeController.cs:13 | messages come in entry order: flattening two runs of entries gives the first run's messages, then the second's |
| OrderEndpoint.ErrorMessagesSingle | eCommerceAppExercise/eCommerceAppExercise/Controllers/HomeController.cs:13 | one entry contributes its messages in their own order |
| OrderEndpoint.ErrorMessagesMembership | eCommerceAppExercise/eCommerceAppExercise/Controllers/HomeController.cs:13 | a message is listed iff some entry carries it: nothing dropped, nothing added |
| OrderEndpoint.ErrorMessagesLength | eCommerceAppExercise/eCommerceAppExercise/Controllers/HomeController.cs:13 | the number of listed messages is the total number of errors |
| OrderEndpoint.IsValid | eCommerceAppExercise/eCommerceAppExercise/Controllers/HomeController.cs:11 | the model state is valid iff there is no error message to report |
| OrderEndpoint.ErrorMessages | eCommerceAppExercise/eCommerceAppExercise/Controllers/HomeController.cs:13 | the flattened list is empty iff no entry carries an error |
| OrderEndpoint.BadRequestBody | eCommerceAppExercise/eCommerceAppExercise/Controllers/HomeController.cs:13-16 | for n messages without line breaks the body holds exactly n-1 separators and splits back into exactly those messages |
| Text.NatToString | CountryExercise/CountryExercise/Program.cs:20 | the decimal rendering of a number is a non-empty digit string with no leading zero |
| Text.ParseNatToString | CountryExercise/CountryExercise/Program.cs:20 | reading the rendered digits back gives the number |
| Text.IntToString | ModelValidationsExample/ModelValidationsExample/CustomValidators/MinimumYearValidatorAttribute.cs:24 | the decimal rendering of an integer is non-empty and starts with '-' iff the integer is negative |
| Text.ParseIntToString | ModelValidationsExample/ModelValidationsExample/CustomValidators/MinimumYearValidatorAttribute.cs:24 | reading a rendered integer back gives the integer, negative values included |
| Text.JoinSeparatorCount | eCommerceAppExercise/eCommerceAppExercise/Controllers/HomeController.cs:14 | `string.Join` of n >= 1 elements without the separator character puts n-1 separators in the result |
| Text.Join | eCommerceAppExercise/eCommerceAppExercise/Controllers/HomeController.cs:14 | `string.Join` of one or more elements starts with the first element and ends with the last |
| Text.SplitJoin | eCommerceAppExercise/eCommerceAppExercise/Controllers/HomeController.cs:14 | splitting on the separator undoes `string.Join` for one or more elements without it |
| Text.FormatNoPlaceholder | ModelValidationsExample/ModelValidationsExample/CustomValidators/MinimumYearValidatorAttribute.cs:24 | a template with no '{' formats to itself |
| Text.FormatOnePlaceholder | ModelValidationsExample/ModelValidationsExample/CustomValidators/MinimumYearValidatorAttribute.cs:24 | a template "prefix{0}suffix" formats to prefix, argument, suffix |
| Text.Format | ModelValidationsExample/ModelValidationsExample/CustomValidators/MinimumYearValidatorAttribute.cs:24 | `string.Format` with one argument; it has no contract of its own, and the two lemmas above state what it does with and without a "{0}" |
| Text.PadLeft | eCommerceAppExercise/eCommerceAppExercise/CustomValidators/MinimumDateValidatorAttribute.cs:27 | padding gives the requested width (or the original when longer), keeps the text at the right and fills with the pad character |
| Calendar.MinValueIsLeast | eCommerceAppExercise/eCommerceAppExercise/CustomValidators/MinimumDateValidatorAttribute.cs:8 | no representable date is earlier than DateTime.MinValue |
| Calendar.BeforeTrichotomy | eCommerceAppExercise/eCommerceAppExercise/CustomValidators/MinimumDateValidatorAttribute.cs:25 | date comparison is a strict total order: irreflexive, asymmetric, total |
| Calendar.Before | eCommerceAppExercise/eCommerceAppExercise/CustomValidators/MinimumDateValidatorAttribute.cs:25 | the `<` on dates: an earlier year makes a date earlier, and an earlier date never has a later year |
| Calendar.PaddedField | eCommerceAppExercise/eCommerceAppExercise/CustomValidators/MinimumDateValidatorAttribute.cs:27 | a number below 10^w padded to w digits is w digits long and reads back as the number |
| Calendar.FormatIsoDate | eCommerceAppExercise/eCommerceAppExercise/CustomValidators/MinimumDateValidatorAttribute.cs:27 | "yyyy-MM-dd" is 10 characters long, has dashes at positions 4 and 7, and its fields read back as year, month and day |

## Findings

| source | as written | input that shows it | evidently intended | confidence | as-written member | corrected member |
|---|---|---|---|---|---|---|
| WeatherAppExercise/WeatherAppExercise/Controllers/HomeController.cs:25-28 | the guard builds `BadRequest(...)` but does not return it, so the action falls through to the lookup | a null `cityUniqueCode`: the view receives a null model, as for an unknown code | `return BadRequest("You must enter a city unique code to access the view")` | not executed; the route template requires the segment, so a null code may never reach the action | WeatherApp.NullCodeReachesView | WeatherApp.CityCheckedRejectsOnlyNull |

`WeatherApp.City` models the code as written. `WeatherApp.CityChecked` is the corrected action.
No other part of the model depends on either one.

## Left out

- Hosting and framework machinery is not modelled: `WebApplication`, routing and route
  constraints, `UseMiddleware`, dependency injection, view rendering, and the `File`, `Json`,
  `BadRequest`, `NotFound` and `Unauthorized` result objects. Results are plain tagged values
  with the status the framework gives them.
- Reading the request body and decoding the URL form (`StreamReader`, `QueryHelpers.ParseQuery`,
  `StringValues` to string) are not modelled. The parsed form is an input, one string per key.
- LoginMiddlewares.CheckLogin: form keys are matched exactly here, but not in the source. The
  dictionary `QueryHelpers.ParseQuery` builds compares keys ignoring case
  (`StringComparer.OrdinalIgnoreCase`), and the Dafny `map` does not. A body posting `Email=...`
  finds the key in the source but counts as missing here. The model therefore assumes the keys
  arrive in the case the handler asks for, "email" and "password". The same holds for
  `LoginStatus`, `LoginMessages` and the lemmas about them.
- BookEndpoint.Index: query keys are matched exactly here, while `Request.Query` ignores case. A
  query `?BookId=5&isloggedin=true` returns the picture in the source but "Book id not supplied"
  here. The model assumes the keys arrive as "bookid" and "isloggedin".
- `Convert.ToInt16`, `Convert.ToBoolean`, `Convert.ToDateTime` and `Convert.ToInt32` are not
  modelled, nor are their exceptions. Their results are inputs.
- BookEndpoint.Index: requires that the id lies in the int16 range. An id outside it makes
  `Convert.ToInt16` throw, and that case is not modelled.
- The reflection in the invoice validator (`GetProperty`/`GetValue`) is not modelled. It is an
  Option of the product list. A null `Products` list makes the `foreach`
  (InvoicePriceValidatorAttribute.cs:25) throw a `NullReferenceException`. The model's
  `Option<seq<Product>>` always holds a list when present, so that case is not representable.
- Prices are integers, not IEEE doubles. Rounding and exact floating-point equality are not
  modelled.
- InvoicePriceValidation.Verdict (and so `IsValid`): the model renders every total in full
  decimal digits with `IntToString`. The source formats a `double`, and `double.ToString` is not
  modelled at all. Its fractional digits, and the exponent form it uses for large whole totals
  (from 10^15 on, e.g. a price of 1000000 times a quantity of 1000000000), differ from the
  model's text.
- Text.Format: only `{0}` placeholders are substituted. Escaped braces (`{{`, `}}`), other
  indices, format specifiers, and the `FormatException` that `string.Format` throws on a bad
  template are not modelled.
- Calendar.FormatIsoDate: culture-specific calendars and digits are not modelled. The
  invariant Gregorian form is assumed.
- LoginMiddlewares.CheckLogin: the status is the last assignment, as the source reads. On a
  real host the second status assignment after a write (both keys missing) throws, because the
  response has started. That is not modelled.
- ASP.NET Core also sends 404 after a pipeline's last middleware calls next. This is not
  modelled, because `CheckLogin` never calls next.
- OrderEndpoint.IsValid: `ModelState.IsValid` is modelled as "no entry carries an error". The
  framework's other validation states (unvalidated, skipped) are not modelled. Neither is the
  order in which the framework runs the attributes to fill the model state.
- OrderEndpoint.RandomNext returns an arbitrary value within its bounds. No distribution and no
  seeding are modelled.
- Dictionary enumeration order is taken as insertion order. The country table is never
  modified, so that is the order it enumerates in.
- `async`/`await` is modelled as ordinary sequential steps.
- Not part of this model: the unseen middle middleware of MiddlewareExample, the store
  controller's route-value interpolation, the data-only view models, the hosting-only
  `Program.cs` files, and the persons/countries directory service.
- The `CityWeather` model class is not part of this model. Its fields are taken from the
  initialisers in the controller.
