/**
 * The browser-side session guard (web/lib/auth.ts): the access token and the role kept
 * in `localStorage`, decoding of the token's payload, and the fail-closed expiry check.
 * `atob` and `JSON.parse` are passed in as partial functions: `None` stands for a thrown
 * exception (or a JSON `null`, which the guard treats the same way).
 */
module ClientAuth {
  import opened Wrappers
  import opened Text

  /** The browser's `localStorage`: a string-to-string store updated in place. */
  class LocalStorage {
    var items: map<string, string>

    constructor ()
      ensures items == map[]
    {
      items := map[];
    }

    /** `getItem`: the stored string, or `null` (here `None`) when the key is absent. */
    function GetItem(key: string): (v: Option<string>)
      reads this
      ensures v.Some? <==> key in items
      ensures v.Some? ==> v.value == items[key]
    {
      if key in items then Some(items[key]) else None
    }

    method SetItem(key: string, value: string)
      modifies this
      ensures items == old(items)[key := value]
    {
      items := items[key := value];
    }

    method RemoveItem(key: string)
      modifies this
      ensures items == old(items) - {key}
    {
      items := items - {key};
    }
  }

  const AuthTokenKey := "auth_token"
  const UserRoleKey := "user_role"

  /** `getAuthToken`: the stored token, `null` when there is none. */
  function GetAuthToken(storage: LocalStorage): (t: Option<string>)
    reads storage
    ensures t.Some? <==> AuthTokenKey in storage.items
    ensures t.Some? ==> t.value == storage.items[AuthTokenKey]
  {
    storage.GetItem(AuthTokenKey)
  }

  /** `getUserRole`: the stored role, `null` when there is none. */
  function GetUserRole(storage: LocalStorage): (r: Option<string>)
    reads storage
    ensures r.Some? <==> UserRoleKey in storage.items
    ensures r.Some? ==> r.value == storage.items[UserRoleKey]
  {
    storage.GetItem(UserRoleKey)
  }

  method SetAuthToken(storage: LocalStorage, token: string)
    modifies storage
    ensures storage.items == old(storage.items)[AuthTokenKey := token]
    ensures GetAuthToken(storage) == Some(token)
    ensures GetUserRole(storage) == old(GetUserRole(storage))
    ensures forall nowMs: int, atob: string -> Option<string>, parse: string -> Option<Payload> ::
              IsAuthenticated(storage, nowMs, atob, parse) == TokenValid(token, nowMs, atob, parse)
  {
    storage.SetItem(AuthTokenKey, token);
  }

  method SetUserRole(storage: LocalStorage, role: string)
    modifies storage
    ensures storage.items == old(storage.items)[UserRoleKey := role]
    ensures GetUserRole(storage) == Some(role)
    ensures GetAuthToken(storage) == old(GetAuthToken(storage))
  {
    storage.SetItem(UserRoleKey, role);
  }

  /** Logout: both keys are removed, every other key is kept, and the guard then refuses. */
  method ClearAuth(storage: LocalStorage)
    modifies storage
    ensures storage.items == old(storage.items) - {AuthTokenKey, UserRoleKey}
    ensures GetAuthToken(storage) == None && GetUserRole(storage) == None
    ensures forall nowMs: int, atob: string -> Option<string>, parse: string -> Option<Payload> ::
              !IsAuthenticated(storage, nowMs, atob, parse)
  {
    storage.RemoveItem(AuthTokenKey);
    storage.RemoveItem(UserRoleKey);
  }

  /** The claims the guard reads from the decoded payload: only `exp`, in seconds, if present and numeric. */
  datatype Payload = Payload(exp: Option<int>)

  /**
   * `decodeToken`: the second `.`-separated segment, through `atob` and `JSON.parse`.
   * A token with no `.` has no second segment; `atob(undefined)` decodes the nine
   * characters "undefined", which is not valid base64, so that case fails too.
   */
  function DecodeToken(token: string, atob: string -> Option<string>, parse: string -> Option<Payload>): (r: Option<Payload>)
    ensures r.Some? ==> '.' in token
  {
    var segments := Split(token, '.');
    if |segments| < 2 then None
    else match atob(segments[1])
      case None => None
      case Some(json) => parse(json)
  }

  /**
   * The check `isAuthenticated` applies to a stored token: it is non-empty, it decodes, and its
   * `exp` claim is strictly later than the current time. With the clock in milliseconds,
   * `exp > nowMs / 1000` is `exp * 1000 > nowMs` without any rounding.
   */
  predicate TokenValid(token: string, nowMs: int, atob: string -> Option<string>, parse: string -> Option<Payload>)
    ensures TokenValid(token, nowMs, atob, parse) ==> token != "" && '.' in token
    ensures DecodeToken(token, atob, parse).None? || DecodeToken(token, atob, parse).value.exp.None? ==>
      !TokenValid(token, nowMs, atob, parse)
  {
    token != "" &&
    match DecodeToken(token, atob, parse)
    case None => false
    case Some(payload) => payload.exp.Some? && payload.exp.value * 1000 > nowMs
  }

  /** `isAuthenticated()`: reads the store and never writes it. */
  predicate IsAuthenticated(storage: LocalStorage, nowMs: int, atob: string -> Option<string>, parse: string -> Option<Payload>)
    reads storage
    ensures IsAuthenticated(storage, nowMs, atob, parse) ==>
      AuthTokenKey in storage.items && TokenValid(storage.items[AuthTokenKey], nowMs, atob, parse)
  {
    match GetAuthToken(storage)
    case None => false
    case Some(token) => TokenValid(token, nowMs, atob, parse)
  }

  /** `getAuthHeader` (web/lib/api.ts): an `Authorization` value only when a non-empty token is stored. */
  function AuthHeader(storage: LocalStorage): (h: Option<string>)
    reads storage
    ensures h.Some? <==> GetAuthToken(storage).Some? && GetAuthToken(storage).value != ""
    ensures h.Some? ==> h.value == "Bearer " + GetAuthToken(storage).value
  {
    match GetAuthToken(storage)
    case Some(token) => if token != "" then Some("Bearer " + token) else None
    case None => None
  }

  // ------------------------------------------------------------------ properties

  /** A compact JWT `header.payload.signature` is judged by its payload segment alone. */
  lemma {:induction false} DecodeCompactToken(header: string, payload: string, signature: string,
                                              atob: string -> Option<string>, parse: string -> Option<Payload>)
    requires '.' !in header && '.' !in payload
    ensures DecodeToken(header + "." + payload + "." + signature, atob, parse) ==
            (match atob(payload) case None => None case Some(json) => parse(json))
  {
    var rest := payload + "." + signature;
    assert header + "." + payload + "." + signature == header + ['.'] + rest;
    SplitAfterPiece(header, '.', rest);
    assert rest == payload + ['.'] + signature;
    SplitAfterPiece(payload, '.', signature);
  }

  /** A token without any `.` never authenticates, whatever the decoders do. */
  lemma NoSegmentsNoSession(token: string, nowMs: int, atob: string -> Option<string>, parse: string -> Option<Payload>)
    requires '.' !in token
    ensures !TokenValid(token, nowMs, atob, parse)
  {
  }

  /** The comparison is strict: at the second `exp` names the session is over, one millisecond earlier it is not. */
  lemma ExpiryIsStrict(token: string, exp: int, atob: string -> Option<string>, parse: string -> Option<Payload>)
    requires token != "" && DecodeToken(token, atob, parse) == Some(Payload(Some(exp)))
    ensures !TokenValid(token, exp * 1000, atob, parse)
    ensures TokenValid(token, exp * 1000 - 1, atob, parse)
  {
  }

  /** Once a token has expired it stays expired: validity can only be lost as time advances. */
  lemma ExpiryIsPermanent(token: string, earlier: int, later: int,
                          atob: string -> Option<string>, parse: string -> Option<Payload>)
    requires earlier <= later
    ensures TokenValid(token, later, atob, parse) ==> TokenValid(token, earlier, atob, parse)
    ensures !TokenValid(token, earlier, atob, parse) ==> !TokenValid(token, later, atob, parse)
  {
  }
}
