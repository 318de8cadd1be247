/**
 * Request authentication and role checks of the API (internal/middleware/auth.go).
 * `AuthMiddleware` accepts only `Authorization: Bearer <token>` with the scheme spelled exactly
 * and the header splitting on single spaces into exactly two parts, then asks the JWT
 * library (an oracle here) to verify the token; on success it stores the `role` claim in the
 * request context. `RoleMiddleware` admits a role equal to one of the allowed role names.
 */
module Middleware {
  import opened Wrappers
  import opened Text
  import opened Gin

  const ContextKeyUserRole := "userRole"

  const MsgHeaderRequired := "Authorization header required"
  const MsgHeaderFormat := "Authorization header format must be Bearer {token}"
  const MsgInvalidTokenPrefix := "Invalid token: "
  /**
   * How golang-jwt v5 wraps an error returned by the keyfunc: the `ErrTokenUnverifiable`
   * sentinel's text, the wrapper's own text, then the keyfunc's error.
   */
  const MsgKeyfuncPrefix := "token is unverifiable: error while executing keyfunc: "
  const MsgRoleMissing := "User role not found in token"
  const MsgRoleFormat := "Invalid role format in token"
  const MsgRoleForbidden := "You don't have permission to access this resource"

  /**
   * What `jwt.Parse` learns about a token string, with the configured secret as the HMAC key:
   * `Malformed` when it cannot be parsed at all; otherwise whether its `alg` is an HMAC method,
   * the library's verification error for the signature and the time-based claims, if any,
   * and the decoded claims.
   */
  datatype ParsedToken =
    | Malformed(detail: string)
    | Parsed(alg: string, hmac: bool, verifyError: Option<string>, claims: map<string, Value>)

  /** The outcome of the authentication step: abort with 401 and a message, or continue with the role claim. */
  datatype AuthDecision = Unauthorized(message: string) | Authenticated(role: Value)

  /** The header format check: the token of `Bearer <token>`, when the header splits on `' '` into exactly two parts. */
  function BearerToken(header: string): (t: Option<string>)
    ensures t.Some? ==> header == "Bearer " + t.value && ' ' !in t.value
  {
    var parts := Split(header, ' ');
    assert |parts| == 2 ==> header == parts[0] + [' '] + parts[1] && ' ' !in parts[1] by {
      if |parts| == 2 {
        assert parts == [parts[0], parts[1]];
        SplitTwo(header, ' ', parts[0], parts[1]);
      }
    }
    assert "Bearer " == "Bearer" + [' '];
    if |parts| != 2 || parts[0] != "Bearer" then None else Some(parts[1])
  }

  /** The value `c.Set` stores: `claims["role"]`, which is `nil` when the claim is absent. */
  function RoleClaim(claims: map<string, Value>): (v: Value)
    ensures v != Nil ==> "role" in claims && claims["role"] == v
    ensures "role" !in claims ==> v == Nil
  {
    if "role" in claims then claims["role"] else Nil
  }

  /**
   * The decision `AuthMiddleware` takes for one request. The keyfunc refuses a non-HMAC
   * method before the signature is checked; any library error aborts with 401.
   */
  function Authenticate(header: string, parse: string -> ParsedToken): (d: AuthDecision)
    ensures d.Authenticated? <==>
      BearerToken(header).Some? && parse(BearerToken(header).value).Parsed? &&
      parse(BearerToken(header).value).hmac && parse(BearerToken(header).value).verifyError.None?
    ensures d.Authenticated? ==> d.role == RoleClaim(parse(BearerToken(header).value).claims)
    ensures header == "" ==> d == Unauthorized(MsgHeaderRequired)
    ensures header != "" && BearerToken(header).None? ==> d == Unauthorized(MsgHeaderFormat)
    ensures d.Unauthorized? && BearerToken(header).Some? ==> MsgInvalidTokenPrefix <= d.message
  {
    if header == "" then Unauthorized(MsgHeaderRequired)
    else match BearerToken(header)
      case None => Unauthorized(MsgHeaderFormat)
      case Some(token) =>
        match parse(token)
        case Malformed(detail) => Unauthorized(MsgInvalidTokenPrefix + detail)
        case Parsed(alg, hmac, verifyError, claims) =>
          if !hmac then Unauthorized(MsgInvalidTokenPrefix + MsgKeyfuncPrefix + "unexpected signing method: " + alg)
          else if verifyError.Some? then Unauthorized(MsgInvalidTokenPrefix + verifyError.value)
          else Authenticated(RoleClaim(claims))
  }

  /**
   * A well-formed header whose token names a method other than HMAC is refused by the keyfunc,
   * and the reply carries the library's wrapping of the keyfunc's error.
   */
  lemma NonHmacRefused(token: string, parse: string -> ParsedToken)
    requires ' ' !in token
    requires parse(token).Parsed? && !parse(token).hmac
    ensures Authenticate("Bearer " + token, parse) ==
      Unauthorized(MsgInvalidTokenPrefix + MsgKeyfuncPrefix + "unexpected signing method: " + parse(token).alg)
  {
    var header := "Bearer " + token;
    BearerTokenExactly(header, token);
    assert header != "" && BearerToken(header) == Some(token);
  }

  /** The header is accepted exactly when it is `"Bearer "` followed by a token that holds no space. */
  lemma BearerTokenExactly(header: string, token: string)
    ensures BearerToken(header) == Some(token) <==> (header == "Bearer " + token && ' ' !in token)
  {
    SplitTwo(header, ' ', "Bearer", token);
    assert "Bearer " + token == "Bearer" + [' '] + token;
    if BearerToken(header) == Some(token) {
      var parts := Split(header, ' ');
      assert parts == [parts[0], parts[1]];
    }
  }

  /** The scheme is compared as written: `bearer` in lower case is refused. */
  lemma LowerCaseSchemeRefused()
    ensures BearerToken("bearer x") == None
  {
    assert "bearer x" == "bearer" + [' '] + "x";
    SplitAfterPiece("bearer", ' ', "x");
  }

  /** Two spaces after the scheme leave an empty part between them, so the header has three parts. */
  lemma DoubleSpaceRefused()
    ensures BearerToken("Bearer  x") == None
  {
    assert "Bearer  x" == "Bearer" + [' '] + " x";
    assert " x" == "" + [' '] + "x";
    SplitAfterPiece("Bearer", ' ', " x");
    SplitAfterPiece("", ' ', "x");
  }

  /** A token holding a space makes a third part. */
  lemma SpacedTokenRefused()
    ensures BearerToken("Bearer a b") == None
  {
    assert "Bearer a b" == "Bearer" + [' '] + "a b";
    assert "a b" == "a" + [' '] + "b";
    SplitAfterPiece("Bearer", ' ', "a b");
    SplitAfterPiece("a", ' ', "b");
  }

  /** A header that fails the format check gets 401 without the token ever being parsed. */
  lemma FormatRejectedBeforeParsing(header: string, parse1: string -> ParsedToken, parse2: string -> ParsedToken)
    requires BearerToken(header).None?
    ensures Authenticate(header, parse1) == Authenticate(header, parse2)
    ensures Authenticate(header, parse1).Unauthorized?
  {
  }

  /** A well-formed header whose token verifies with an HMAC method continues with that token's role claim. */
  lemma VerifiedTokenAuthenticates(token: string, parse: string -> ParsedToken)
    requires ' ' !in token
    requires parse(token).Parsed? && parse(token).hmac && parse(token).verifyError.None?
    ensures Authenticate("Bearer " + token, parse) == Authenticated(RoleClaim(parse(token).claims))
  {
    BearerTokenExactly("Bearer " + token, token);
  }

  /** `AuthMiddleware(secretKey)` applied to one request whose `Authorization` header is `header`. */
  method AuthMiddleware(c: Context, header: string, parse: string -> ParsedToken)
    modifies c
    ensures Authenticate(header, parse).Unauthorized? ==>
      c.aborted && c.status == StatusUnauthorized &&
      c.errorMessage == Authenticate(header, parse).message &&
      c.keys == old(c.keys) && c.continued == old(c.continued)
    ensures Authenticate(header, parse).Authenticated? ==>
      c.keys == old(c.keys)[ContextKeyUserRole := Authenticate(header, parse).role] &&
      c.continued && c.aborted == old(c.aborted) && c.status == old(c.status)
  {
    var decision := Authenticate(header, parse);
    match decision
    case Unauthorized(message) =>
      c.AbortWithStatusJSON(StatusUnauthorized, message);
    case Authenticated(role) =>
      c.Set(ContextKeyUserRole, role);
      c.Next();
  }

  // -------------------------------------------------------------- role checking

  datatype RoleDecision = Forbidden(message: string) | Admitted

  /**
   * What `RoleMiddleware(allowedRoles...)` decides from the context entry: 403 when no role is
   * stored or it is not a string, otherwise admission exactly when it equals an allowed role.
   */
  function Authorize(stored: Option<Value>, allowedRoles: seq<string>): (d: RoleDecision)
    ensures d.Admitted? <==> stored.Some? && stored.value.Str? && stored.value.s in allowedRoles
  {
    match stored
    case None => Forbidden(MsgRoleMissing)
    case Some(Str(role)) => if role in allowedRoles then Admitted else Forbidden(MsgRoleForbidden)
    case Some(_) => Forbidden(MsgRoleFormat)
  }

  /** An empty list of allowed roles admits nobody. */
  lemma NoRolesAdmitNobody(stored: Option<Value>)
    ensures Authorize(stored, []).Forbidden?
  {
  }

  /** A missing `role` claim is stored as `nil`, which the role check refuses as a malformed role. */
  lemma MissingRoleClaimIsForbidden(claims: map<string, Value>, allowedRoles: seq<string>)
    requires "role" !in claims
    ensures Authorize(Some(RoleClaim(claims)), allowedRoles) == Forbidden(MsgRoleFormat)
  {
  }

  method RoleMiddleware(c: Context, allowedRoles: seq<string>)
    modifies c
    ensures Authorize(old(c.Get(ContextKeyUserRole)), allowedRoles).Forbidden? ==>
      c.aborted && c.status == StatusForbidden &&
      c.errorMessage == Authorize(old(c.Get(ContextKeyUserRole)), allowedRoles).message &&
      c.keys == old(c.keys) && c.continued == old(c.continued)
    ensures Authorize(old(c.Get(ContextKeyUserRole)), allowedRoles).Admitted? ==>
      c.continued && c.keys == old(c.keys) && c.aborted == old(c.aborted) && c.status == old(c.status)
  {
    var stored := c.Get(ContextKeyUserRole);
    if stored.None? {
      c.AbortWithStatusJSON(StatusForbidden, MsgRoleMissing);
      return;
    }
    if !stored.value.Str? {
      c.AbortWithStatusJSON(StatusForbidden, MsgRoleFormat);
      return;
    }
    var userRole := stored.value.s;
    var i := 0;
    while i < |allowedRoles|
      invariant 0 <= i <= |allowedRoles|
      invariant userRole !in allowedRoles[..i]
      invariant unchanged(c)
    {
      if userRole == allowedRoles[i] {
        c.Next();
        return;
      }
      i := i + 1;
    }
    assert allowedRoles[..i] == allowedRoles;
    c.AbortWithStatusJSON(StatusForbidden, MsgRoleForbidden);
  }
}
