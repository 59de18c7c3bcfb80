/** The LoginExercise pipeline: a gate that lets only POST requests through, followed by a
    terminal stage that checks the posted credentials. */
module LoginMiddlewares {
  import opened Http

  /** `HttpMethods.Post`; the comparison with the request's method is ordinal and case-sensitive. */
  const Post := "POST"

  const EmailMissing := "Invalid input for 'email'\n"
  const PasswordMissing := "Invalid input for 'password'\n"
  const AdminEmail := "admin@example.com"
  const AdminPassword := "admin1234"
  const LoginSucceeded := "Successful login"
  const LoginFailed := "Invalid Login"

  /** The value the login check ends up holding for `key`: the posted one, or `string.Empty`. */
  function FieldOrEmpty(form: map<string, string>, key: string): string {
    if key in form then form[key] else ""
  }

  /** Both values are non-empty, so the credentials are compared. */
  predicate HasCredentials(form: map<string, string>) {
    FieldOrEmpty(form, "email") != "" && FieldOrEmpty(form, "password") != ""
  }

  /** The posted pair is the administrator's. */
  predicate IsAdmin(form: map<string, string>) {
    FieldOrEmpty(form, "email") == AdminEmail && FieldOrEmpty(form, "password") == AdminPassword
  }

  /** What the check writes about keys that are absent: email first, then password. */
  function MissingKeyMessages(form: map<string, string>): seq<string> {
    (if "email" in form then [] else [EmailMissing])
      + (if "password" in form then [] else [PasswordMissing])
  }

  /** What the check writes about the credentials themselves. */
  function CredentialMessages(form: map<string, string>): seq<string> {
    if !HasCredentials(form) then []
    else if IsAdmin(form) then [LoginSucceeded]
    else [LoginFailed]
  }

  /** Everything the login check writes, in order. */
  function LoginMessages(form: map<string, string>): seq<string> {
    MissingKeyMessages(form) + CredentialMessages(form)
  }

  /** The status after the login check, starting from `before`: the last status assigned. */
  function LoginStatus(form: map<string, string>, before: int): int {
    if HasCredentials(form) then (if IsAdmin(form) then 200 else 401)
    else if "email" !in form || "password" !in form then 400
    else before
  }

  /** `CheckHttpMethod.InvokeAsync`. The call `await _next(context)` is the last thing this stage
      does, so it is modelled by returning `callsNext` and letting the pipeline run the next stage. */
  method CheckHttpMethod(request: HttpRequest, response: HttpResponse) returns (callsNext: bool)
    modifies response
    ensures callsNext <==> request.verb == Post
    ensures response.written == old(response.written)
    ensures response.statusCode == if callsNext then old(response.statusCode) else 200
  {
    if request.verb == Post {
      callsNext := true;
    } else {
      response.statusCode := 200;
      callsNext := false;
    }
  }

  /** `CheckLogin.InvokeAsync`: a terminal stage; it never invokes its stored `next`. */
  method CheckLogin(request: HttpRequest, response: HttpResponse)
    modifies response
    ensures response.written == old(response.written) + LoginMessages(request.form)
    ensures response.statusCode == LoginStatus(request.form, old(response.statusCode))
  {
    var form := request.form;
    var email := "";
    var password := "";
    if "email" in form {
      email := form["email"];
    } else {
      response.statusCode := 400;
      response.WriteAsync(EmailMissing);
    }
    if "password" in form {
      password := form["password"];
    } else {
      response.statusCode := 400;
      response.WriteAsync(PasswordMissing);
    }
    assert email == FieldOrEmpty(form, "email") && password == FieldOrEmpty(form, "password");
    if email != "" && password != "" {
      if email == AdminEmail && password == AdminPassword {
        response.statusCode := 200;
        response.WriteAsync(LoginSucceeded);
      } else {
        response.statusCode := 401;
        response.WriteAsync(LoginFailed);
      }
    }
  }

  /** The application: `UseCheckHttpMethod()` then `UseCheckLogin()`, in that order. */
  method RunLoginApp(request: HttpRequest, response: HttpResponse) returns (reachedLogin: bool)
    modifies response
    ensures reachedLogin <==> request.verb == Post
    ensures reachedLogin ==> response.written == old(response.written) + LoginMessages(request.form)
    ensures reachedLogin ==> response.statusCode == LoginStatus(request.form, old(response.statusCode))
    ensures !reachedLogin ==> response.written == old(response.written) && response.statusCode == 200
  {
    reachedLogin := CheckHttpMethod(request, response);
    if reachedLogin {
      CheckLogin(request, response);
    }
  }

  /** A request as the host serves it: a fresh response (status 200, nothing written) goes through
      the pipeline. A POST ends with the login check's messages and status; anything else ends
      with 200 and an empty body. */
  method ServeLoginRequest(request: HttpRequest) returns (response: HttpResponse)
    ensures response.written == if request.verb == Post then LoginMessages(request.form) else []
    ensures response.statusCode == if request.verb == Post then LoginStatus(request.form, 200) else 200
  {
    response := new HttpResponse();
    var _ := RunLoginApp(request, response);
  }

  /** A missing "email" key gives 400 and the email message first. */
  lemma MissingEmail(form: map<string, string>, before: int)
    requires "email" !in form
    ensures LoginStatus(form, before) == 400
    ensures LoginMessages(form)[0] == EmailMissing
    ensures CredentialMessages(form) == []
  {
  }

  /** A missing "password" key gives 400 and the password message, after any email message. */
  lemma MissingPassword(form: map<string, string>, before: int)
    requires "password" !in form
    ensures LoginStatus(form, before) == 400
    ensures LoginMessages(form) == (if "email" in form then [] else [EmailMissing]) + [PasswordMissing]
  {
  }

  /** Both keys missing: both messages, email first; neither check stops the other. */
  lemma BothMissing(form: map<string, string>, before: int)
    requires "email" !in form && "password" !in form
    ensures LoginStatus(form, before) == 400
    ensures LoginMessages(form) == [EmailMissing, PasswordMissing]
  {
  }

  /** The administrator's credentials give 200 and "Successful login" alone. */
  lemma AdminLogin(form: map<string, string>, before: int)
    requires "email" in form && form["email"] == AdminEmail
    requires "password" in form && form["password"] == AdminPassword
    ensures LoginStatus(form, before) == 200
    ensures LoginMessages(form) == [LoginSucceeded]
  {
  }

  /** Any other pair of non-empty values gives 401 and "Invalid Login" alone. */
  lemma WrongCredentials(form: map<string, string>, before: int)
    requires "email" in form && form["email"] != ""
    requires "password" in form && form["password"] != ""
    requires form["email"] != AdminEmail || form["password"] != AdminPassword
    ensures LoginStatus(form, before) == 401
    ensures LoginMessages(form) == [LoginFailed]
  {
  }

  /** A message about a missing key and a message about the credentials never appear together:
      a missing key leaves its value empty, so the credentials are not compared. */
  lemma MissingExcludesCredentials(form: map<string, string>)
    ensures MissingKeyMessages(form) == [] || CredentialMessages(form) == []
    ensures CredentialMessages(form) != [] ==> "email" in form && "password" in form
  {
  }

  /** Both keys present with one value empty: nothing written and the status kept. */
  lemma EmptyValueHasNoEffect(form: map<string, string>, before: int)
    requires "email" in form && "password" in form
    requires form["email"] == "" || form["password"] == ""
    ensures LoginMessages(form) == []
    ensures LoginStatus(form, before) == before
  {
  }

  /** The outcomes in one statement: the status after the check is 200 exactly for the
      administrator's pair, or when nothing was checked and it was 200 already. */
  lemma LoginStatusCases(form: map<string, string>, before: int)
    ensures LoginStatus(form, before) == 200 <==>
      IsAdmin(form) || (before == 200 && "email" in form && "password" in form && !HasCredentials(form))
    ensures LoginStatus(form, before) == 400 <==>
      ("email" !in form || "password" !in form) || (before == 400 && !HasCredentials(form))
  {
  }
}
