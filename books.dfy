/** IActionResultExample's book endpoint: a chain of guards over the query string, each of which
    may end the action with an error result, before the picture is returned. */
module BookEndpoint {

  /** The action results the endpoint can return. */
  datatype ActionResult =
    | BadRequest(message: string)
    | NotFound(message: string)
    | Unauthorized(message: string)
    | File(path: string, contentType: string)
  {
    /** The status code the framework sends for the result. */
    function StatusCode(): int {
      match this
      case BadRequest(_) => 400
      case NotFound(_) => 404
      case Unauthorized(_) => 401
      case File(_, _) => 200
    }
  }

  const NotSupplied := "Book id not supplied"
  const NullOrEmpty := "Book id cannot be null or empty"
  const NotPositive := "Book id cannot be less than or equal to zero"
  const TooLarge := "Book id cannot be greater than 1000"
  const NotAuthenticated := "User must be authenticated"
  const Picture := File("/dog.png", "image/png")

  /** The range of `Convert.ToInt16`. */
  predicate IsInt16(n: int) {
    -32768 <= n <= 32767
  }

  /** The "book" action. `query` is the query string; `bookId` is `Convert.ToInt16` of the
      "bookid" value and `isLoggedIn` is `Convert.ToBoolean` of the "isloggedin" value (false
      when absent). Both are read only once the earlier guards have passed, so only there does
      `bookId` have to be a parsed 16-bit value. */
  function Index(query: map<string, string>, bookId: int, isLoggedIn: bool): (r: ActionResult)
    requires "bookid" in query && query["bookid"] != "" ==> IsInt16(bookId)
    ensures r == Picture <==> "bookid" in query && query["bookid"] != "" && 1 <= bookId <= 1000 && isLoggedIn
    ensures r.BadRequest? <==> "bookid" !in query || query["bookid"] == "" || bookId <= 0
    ensures r.NotFound? <==> "bookid" in query && query["bookid"] != "" && bookId > 1000
    ensures r.StatusCode() == 200 <==> r == Picture
  {
    if "bookid" !in query then BadRequest(NotSupplied)
    else if query["bookid"] == "" then BadRequest(NullOrEmpty)
    else if bookId <= 0 then BadRequest(NotPositive)
    else if bookId > 1000 then NotFound(TooLarge)
    else if !isLoggedIn then Unauthorized(NotAuthenticated)
    else Picture
  }

  /** Without "bookid": 400 "Book id not supplied", whatever else is passed. */
  lemma MissingBookId(query: map<string, string>, bookId: int, isLoggedIn: bool)
    requires "bookid" !in query
    ensures Index(query, bookId, isLoggedIn) == BadRequest(NotSupplied)
    ensures Index(query, bookId, isLoggedIn).StatusCode() == 400
  {
  }

  /** An empty "bookid": 400 "Book id cannot be null or empty". */
  lemma EmptyBookId(query: map<string, string>, bookId: int, isLoggedIn: bool)
    requires "bookid" in query && query["bookid"] == ""
    ensures Index(query, bookId, isLoggedIn) == BadRequest(NullOrEmpty)
  {
  }

  /** An id of zero or less: 400 with the "less than or equal to zero" message. */
  lemma NonPositiveBookId(query: map<string, string>, bookId: int, isLoggedIn: bool)
    requires "bookid" in query && query["bookid"] != "" && IsInt16(bookId)
    requires bookId <= 0
    ensures Index(query, bookId, isLoggedIn) == BadRequest(NotPositive)
  {
  }

  /** An id above 1000: 404 Not Found, not 400. */
  lemma LargeBookId(query: map<string, string>, bookId: int, isLoggedIn: bool)
    requires "bookid" in query && query["bookid"] != "" && IsInt16(bookId)
    requires bookId > 1000
    ensures Index(query, bookId, isLoggedIn) == NotFound(TooLarge)
    ensures Index(query, bookId, isLoggedIn).StatusCode() == 404
  {
  }

  /** An id in 1..1000 without a true "isloggedin": 401. */
  lemma NotLoggedIn(query: map<string, string>, bookId: int)
    requires "bookid" in query && query["bookid"] != ""
    requires 1 <= bookId <= 1000
    ensures Index(query, bookId, false) == Unauthorized(NotAuthenticated)
    ensures Index(query, bookId, false).StatusCode() == 401
  {
  }

  /** Later inputs matter only once the earlier guards have passed: the parsed id and the login
      flag are never looked at for a missing or empty "bookid", and the login flag is never looked
      at for an id out of 1..1000. */
  lemma FirstFailingGuardDecides(query: map<string, string>, id1: int, id2: int, in1: bool, in2: bool)
    requires "bookid" in query && query["bookid"] != "" ==> IsInt16(id1) && IsInt16(id2)
    ensures ("bookid" !in query || query["bookid"] == "") ==> Index(query, id1, in1) == Index(query, id2, in2)
    ensures !(1 <= id1 <= 1000) ==> Index(query, id1, in1) == Index(query, id1, in2)
  {
  }
}
