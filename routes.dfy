/**
 * The route table of the API server (api/cmd/server/main.go): which roles each protected
 * route admits, and what a request meets before it reaches a handler — the authentication
 * step, then the role check. Also how the pieces meet: the header the web client sends, and
 * the role claim the login service signs.
 */
module Routes {
  import opened Wrappers
  import opened Gin
  import opened Middleware
  import AuthService
  import ClientAuth
  import PatientTable

  datatype Route = Route(verb: string, path: string, roles: seq<string>)

  const Receptionist := "receptionist"
  const Doctor := "doctor"

  /** The routes behind the authentication middleware, each with the roles given to `RoleMiddleware`. */
  const ProtectedRoutes: seq<Route> := [
    Route("POST", "/patients", [Receptionist]),
    Route("GET", "/patients", [Receptionist, Doctor]),
    Route("GET", "/patients/:id", [Receptionist, Doctor]),
    Route("PUT", "/patients/:id", [Receptionist]),
    Route("PATCH", "/patients/:id/medical", [Doctor]),
    Route("DELETE", "/patients/:id", [Receptionist]),
    Route("POST", "/patients/:id/prescriptions", [Doctor]),
    Route("GET", "/patients/:id/prescriptions", [Receptionist, Doctor]),
    Route("POST", "/patients/:id/documents", [Receptionist, Doctor]),
    Route("GET", "/patients/:id/documents", [Receptionist, Doctor]),
    Route("DELETE", "/documents/:doc_id", [Receptionist])
  ]

  /** The roles a protected route admits; `None` for a route outside the table, such as `POST /login`. */
  function RolesFor(verb: string, path: string): (r: Option<seq<string>>)
    ensures r.Some? <==> exists i :: 0 <= i < |ProtectedRoutes| && ProtectedRoutes[i].verb == verb && ProtectedRoutes[i].path == path
    ensures r.Some? ==> exists i :: 0 <= i < |ProtectedRoutes| && ProtectedRoutes[i] == Route(verb, path, r.value)
  {
    RolesIn(ProtectedRoutes, verb, path)
  }

  function RolesIn(routes: seq<Route>, verb: string, path: string): (r: Option<seq<string>>)
    ensures r.Some? <==> exists i :: 0 <= i < |routes| && routes[i].verb == verb && routes[i].path == path
    ensures r.Some? ==> exists i :: 0 <= i < |routes| && routes[i] == Route(verb, path, r.value)
  {
    if routes == [] then None
    else if routes[0].verb == verb && routes[0].path == path then Some(routes[0].roles)
    else
      var r := RolesIn(routes[1..], verb, path);
      assert r.Some? ==> exists i :: 0 <= i < |routes| && routes[i] == Route(verb, path, r.value) by {
        if r.Some? {
          var i :| 0 <= i < |routes[1..]| && routes[1..][i] == Route(verb, path, r.value);
          assert routes[i + 1] == Route(verb, path, r.value);
        }
      }
      assert (exists i :: 0 <= i < |routes| && routes[i].verb == verb && routes[i].path == path) ==> r.Some? by {
        if i :| 0 <= i < |routes| && routes[i].verb == verb && routes[i].path == path {
          assert i != 0;
          assert routes[1..][i - 1] == routes[i];
        }
      }
      r
  }

  /** The lookup answers with the roles of the first entry for the verb and path. */
  lemma {:induction false} RolesInFirstMatch(routes: seq<Route>, i: int)
    requires 0 <= i < |routes|
    requires forall j :: 0 <= j < i ==> routes[j].verb != routes[i].verb || routes[j].path != routes[i].path
    ensures RolesIn(routes, routes[i].verb, routes[i].path) == Some(routes[i].roles)
  {
    if i > 0 {
      forall j | 0 <= j < i - 1
        ensures routes[1..][j].verb != routes[1..][i - 1].verb || routes[1..][j].path != routes[1..][i - 1].path
      {
        assert routes[1..][j] == routes[j + 1];
      }
      RolesInFirstMatch(routes[1..], i - 1);
    }
  }

  /** Each entry of the table is the one the lookup finds for its verb and path. */
  lemma RolesForEntry(i: int)
    requires 0 <= i < |ProtectedRoutes|
    ensures RolesFor(ProtectedRoutes[i].verb, ProtectedRoutes[i].path) == Some(ProtectedRoutes[i].roles)
  {
    forall j | 0 <= j < i
      ensures ProtectedRoutes[j].verb != ProtectedRoutes[i].verb || ProtectedRoutes[j].path != ProtectedRoutes[i].path
    {
      RoutesAreDistinct(j, i);
    }
    RolesInFirstMatch(ProtectedRoutes, i);
  }

  /** What stops a request before its handler, or lets it through. */
  datatype Gate = Rejected(status: int, message: string) | ReachesHandler

  /** The authentication step and then the role check, for a route admitting `roles`. */
  function Guard(header: string, parse: string -> ParsedToken, roles: seq<string>): (g: Gate)
    ensures g.ReachesHandler? <==>
      Authenticate(header, parse).Authenticated? &&
      Authorize(Some(Authenticate(header, parse).role), roles).Admitted?
    ensures Authenticate(header, parse).Unauthorized? ==> g == Rejected(StatusUnauthorized, Authenticate(header, parse).message)
    ensures g.Rejected? && Authenticate(header, parse).Authenticated? ==> g.status == StatusForbidden
  {
    match Authenticate(header, parse)
    case Unauthorized(message) => Rejected(StatusUnauthorized, message)
    case Authenticated(role) =>
      match Authorize(Some(role), roles)
      case Forbidden(message) => Rejected(StatusForbidden, message)
      case Admitted => ReachesHandler
  }

  // ---------------------------------------------------------------- properties

  /** No two entries of the table share a verb and a path. */
  lemma RoutesAreDistinct(i: int, j: int)
    requires 0 <= i < j < |ProtectedRoutes|
    ensures ProtectedRoutes[i].verb != ProtectedRoutes[j].verb || ProtectedRoutes[i].path != ProtectedRoutes[j].path
  {
  }

  /** The login route is not behind the middleware. */
  lemma LoginIsOpen()
    ensures RolesFor("POST", "/login") == None
  {
  }

  /** Only a doctor may change the medical record. */
  lemma MedicalUpdateIsDoctorOnly(role: string)
    ensures RolesFor("PATCH", "/patients/:id/medical") == Some([Doctor])
    ensures Authorize(Some(Str(role)), RolesFor("PATCH", "/patients/:id/medical").value).Admitted? <==> role == Doctor
  {
    RolesForEntry(4);
  }

  /** The patient table offers Edit exactly to the roles the server admits on `PUT /patients/:id`. */
  lemma TableEditMatchesServer(role: string)
    ensures RolesFor("PUT", "/patients/:id") == Some([Receptionist])
    ensures PatientTable.OffersActions(Some(role)) <==> Authorize(Some(Str(role)), RolesFor("PUT", "/patients/:id").value).Admitted?
  {
    RolesForEntry(3);
    AdmitsReceptionistOnly(role);
  }

  /** The patient table offers Delete exactly to the roles the server admits on `DELETE /patients/:id`. */
  lemma TableDeleteMatchesServer(role: string)
    ensures RolesFor("DELETE", "/patients/:id") == Some([Receptionist])
    ensures PatientTable.OffersActions(Some(role)) <==> Authorize(Some(Str(role)), RolesFor("DELETE", "/patients/:id").value).Admitted?
  {
    RolesForEntry(5);
    AdmitsReceptionistOnly(role);
  }

  /** A role check whose only allowed role is `receptionist`. */
  lemma AdmitsReceptionistOnly(role: string)
    ensures Authorize(Some(Str(role)), [Receptionist]).Admitted? <==> role == Receptionist
  {
    assert role in [Receptionist] <==> role == Receptionist;
  }

  /** Only a doctor may write a prescription. */
  lemma PrescribingIsDoctorOnly(role: string)
    ensures RolesFor("POST", "/patients/:id/prescriptions") == Some([Doctor])
    ensures Authorize(Some(Str(role)), RolesFor("POST", "/patients/:id/prescriptions").value).Admitted? <==> role == Doctor
  {
    RolesForEntry(6);
  }

  /**
   * A doctor with a verified token is refused creating a patient with 403 and reaches the
   * handler listing patients.
   */
  lemma DoctorOnPatients(token: string, parse: string -> ParsedToken)
    requires ' ' !in token
    requires parse(token).Parsed? && parse(token).hmac && parse(token).verifyError.None?
    requires "role" in parse(token).claims && parse(token).claims["role"] == Str(Doctor)
    ensures RolesFor("POST", "/patients") == Some([Receptionist])
    ensures RolesFor("GET", "/patients") == Some([Receptionist, Doctor])
    ensures Guard("Bearer " + token, parse, RolesFor("POST", "/patients").value) == Rejected(StatusForbidden, MsgRoleForbidden)
    ensures Guard("Bearer " + token, parse, RolesFor("GET", "/patients").value) == ReachesHandler
  {
    VerifiedTokenAuthenticates(token, parse);
    RolesForEntry(0);
    RolesForEntry(1);
  }

  /** The header the web client sends passes the format check exactly when the stored token holds no space. */
  lemma ClientHeaderFormat(storage: ClientAuth.LocalStorage)
    requires ClientAuth.AuthHeader(storage).Some?
    ensures BearerToken(ClientAuth.AuthHeader(storage).value) == Some(ClientAuth.GetAuthToken(storage).value) <==>
            ' ' !in ClientAuth.GetAuthToken(storage).value
    ensures BearerToken(ClientAuth.AuthHeader(storage).value).Some? <==> ' ' !in ClientAuth.GetAuthToken(storage).value
  {
    var token := ClientAuth.GetAuthToken(storage).value;
    BearerTokenExactly(ClientAuth.AuthHeader(storage).value, token);
    if BearerToken("Bearer " + token).Some? {
      var t := BearerToken("Bearer " + token).value;
      BearerTokenExactly("Bearer " + token, t);
      assert "Bearer " + token == "Bearer " + t;
      assert token == ("Bearer " + token)[7..] == ("Bearer " + t)[7..] == t;
    }
  }

  /** The claims the login service signs, as the JWT library hands them back after verification. */
  function ClaimsMap(c: AuthService.Claims): (m: map<string, Value>)
    ensures m.Keys == {"sub", "user", "role", "exp"}
    ensures m["role"] == Str(c.role)
  {
    map["sub" := Number(c.sub), "user" := Str(c.user), "role" := Str(c.role), "exp" := Number(c.exp)]
  }

  /**
   * A token issued at login for a user, once verified, puts that user's role in the request
   * context: a doctor's token opens exactly the routes that admit doctors.
   */
  lemma IssuedRoleReachesRoleCheck(user: AuthService.User, nowSec: int, token: string,
                                   parse: string -> ParsedToken, verb: string, path: string)
    requires ' ' !in token
    requires parse(token) == Parsed("HS256", true, None, ClaimsMap(AuthService.IssuedClaims(user, nowSec)))
    requires RolesFor(verb, path).Some?
    ensures Authenticate("Bearer " + token, parse) == Authenticated(Str(user.role))
    ensures Guard("Bearer " + token, parse, RolesFor(verb, path).value).ReachesHandler? <==>
            user.role in RolesFor(verb, path).value
  {
    VerifiedTokenAuthenticates(token, parse);
  }
}
