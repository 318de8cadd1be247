/**
 * `POST /login` (internal/auth/handler.go): bind the credentials, call the login service
 * and map its outcome to a status code. The service is passed in as a function of the
 * username and password.
 */
module AuthHandler {
  import opened Wrappers
  import opened Gin
  import opened Binding
  import AuthService

  datatype LoginRequest = LoginRequest(username: string, password: string)

  datatype LoginResponse = LoginResponse(token: string)

  const MsgInvalidBody := "Invalid request body: "
  const MsgInvalidCredentials := "Invalid username or password"
  const MsgLoginFailed := "Failed to login: "

  /** Both members decode as strings and both are non-empty (`binding:"required"`). */
  function BindLoginRequest(body: JsonBody): (r: Result<LoginRequest, BindError>)
    ensures r.Ok? <==>
      body.Object? &&
      StringMember(body.members, "username").Some? && StringMember(body.members, "username").value != "" &&
      StringMember(body.members, "password").Some? && StringMember(body.members, "password").value != ""
    ensures r.Ok? ==>
      r.value.username == StringMember(body.members, "username").value &&
      r.value.password == StringMember(body.members, "password").value
  {
    match body
    case NotAnObject(detail) => Err(Syntax(detail))
    case Object(m) =>
      if StringMember(m, "username").None? then Err(MistypedMember("LoginRequest", m, "username", "string"))
      else if StringMember(m, "password").None? then Err(MistypedMember("LoginRequest", m, "password", "string"))
      else
        var req := LoginRequest(StringMember(m, "username").value, StringMember(m, "password").value);
        Validated(req, RequiredString("LoginRequest", "Username", req.username) +
                       RequiredString("LoginRequest", "Password", req.password))
  }

  /**
   * `Handler.Login`. 400 when the body does not bind, 401 for invalid credentials, 500 for any
   * other service error, 200 with the token otherwise.
   */
  function Login(body: JsonBody, login: (string, string) -> Result<string, AuthService.AuthError>): (reply: Reply<LoginResponse>)
    ensures reply.status == StatusBadRequest <==> BindLoginRequest(body).Err?
    ensures reply.status == StatusUnauthorized <==>
      BindLoginRequest(body).Ok? &&
      login(BindLoginRequest(body).value.username, BindLoginRequest(body).value.password) == Err(AuthService.ErrInvalidCredentials)
    ensures reply.status == StatusOK <==>
      BindLoginRequest(body).Ok? &&
      login(BindLoginRequest(body).value.username, BindLoginRequest(body).value.password).Ok?
    ensures reply.status == StatusOK ==>
      reply.body == Json(LoginResponse(login(BindLoginRequest(body).value.username, BindLoginRequest(body).value.password).value))
    ensures reply.status in {StatusOK, StatusBadRequest, StatusUnauthorized, StatusInternalServerError}
    ensures reply.status != StatusOK ==> reply.body.ErrorJson?
  {
    match BindLoginRequest(body)
    case Err(e) => Reply(StatusBadRequest, ErrorJson(MsgInvalidBody + BindErrorText(e)))
    case Ok(req) =>
      match login(req.username, req.password)
      case Err(err) =>
        if err == AuthService.ErrInvalidCredentials then Reply(StatusUnauthorized, ErrorJson(MsgInvalidCredentials))
        else Reply(StatusInternalServerError, ErrorJson(MsgLoginFailed + AuthService.ErrorText(err)))
      case Ok(token) => Reply(StatusOK, Json(LoginResponse(token)))
  }

  /** A body that does not bind is answered without consulting the service. */
  lemma BadBodySkipsService(body: JsonBody,
                            login1: (string, string) -> Result<string, AuthService.AuthError>,
                            login2: (string, string) -> Result<string, AuthService.AuthError>)
    requires BindLoginRequest(body).Err?
    ensures Login(body, login1) == Login(body, login2)
  {
  }

  /** A missing or empty username or password is a 400. */
  lemma EmptyCredentialIsBadRequest(members: map<string, Value>,
                                    login: (string, string) -> Result<string, AuthService.AuthError>)
    requires "username" !in members || members["username"] == Str("") ||
             "password" !in members || members["password"] == Str("")
    ensures Login(Object(members), login).status == StatusBadRequest
  {
  }

  /** The body `{"username":"user"}` gets 400 with a message that starts with "Invalid request body". */
  lemma MissingPasswordExample(login: (string, string) -> Result<string, AuthService.AuthError>)
    ensures Login(Object(map["username" := Str("user")]), login).status == StatusBadRequest
    ensures MsgInvalidBody <= Login(Object(map["username" := Str("user")]), login).body.message
  {
  }

  /**
   * Wired to the login service: an unknown user and a wrong password both get 401 with the
   * same message, whatever the signer does.
   */
  lemma UnknownUserIsUnauthorized(
    username: string, password: string, nowSec: int,
    lookup: string -> Result<AuthService.User, AuthService.AuthError>,
    checkHash: (string, string) -> bool,
    sign: AuthService.Claims -> Result<string, string>)
    requires username != "" && password != ""
    requires lookup(username) == Err(AuthService.ErrUserNotFound) ||
             (lookup(username).Ok? && !checkHash(password, lookup(username).value.passwordHash))
    ensures Login(Object(map["username" := Str(username), "password" := Str(password)]),
                  (u, p) => AuthService.Login(u, p, lookup, checkHash, sign, nowSec)) ==
            Reply(StatusUnauthorized, ErrorJson(MsgInvalidCredentials))
  {
    var body := Object(map["username" := Str(username), "password" := Str(password)]);
    assert BindLoginRequest(body) == Ok(LoginRequest(username, password));
  }

  /** `{"username":"user","password":"pass"}` with a service that answers `token123` gets 200 and that token. */
  lemma SuccessExample(login: (string, string) -> Result<string, AuthService.AuthError>)
    requires login("user", "pass") == Ok("token123")
    ensures Login(Object(map["username" := Str("user"), "password" := Str("pass")]), login) ==
            Reply(StatusOK, Json(LoginResponse("token123")))
  {
    var body := Object(map["username" := Str("user"), "password" := Str("pass")]);
    assert BindLoginRequest(body) == Ok(LoginRequest("user", "pass"));
  }
}
