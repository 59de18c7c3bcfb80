/** The pieces of an ASP.NET Core `HttpContext` that the middlewares and endpoints touch. */
module Http {

  /** A request: its method (`Request.Method`) and its body, already read and parsed as a URL-encoded form
      (one string per key). */
  datatype HttpRequest = HttpRequest(verb: string, form: map<string, string>)

  /** `HttpContext.Response`: the status code and the text written to the body, one element per
      `WriteAsync` call, in call order. */
  class HttpResponse {
    var statusCode: int
    var written: seq<string>

    /** A fresh response: status 200 and nothing written. */
    constructor ()
      ensures statusCode == 200 && written == []
    {
      statusCode := 200;
      written := [];
    }

    /** `Response.WriteAsync(text)`: appends to the body and leaves the status alone. */
    method WriteAsync(text: string)
      modifies this
      ensures written == old(written) + [text]
      ensures statusCode == old(statusCode)
    {
      written := written + [text];
    }
  }
}
