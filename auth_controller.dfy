/** `AuthController`: starting a Discord login for a service, the OAuth
    callback that grants the service and records the login, and the success
    route that issues the tokens. The service name travels in the OAuth 2.0
    `state` parameter (section 4.1.1 of RFC 6749). */
module AuthController {
  import opened Wrappers
  import opened Strings
  import opened Store
  import opened ServicesService
  import opened UserService
  import opened AuthService

  /** The answers the three routes give. */
  datatype HttpReply =
    | Json(status: int, success: Option<bool>, message: Option<string>, error: Option<string>)
    | RedirectToDiscord(state: string)
    | Redirect(location: string)
    | NextError(cause: string)
    | LoginSuccess(greeting: string, user: User, service: string, accessToken: Jwt, refreshToken: Jwt)

  const MissingService := Json(400, Some(false), Some("Service information missing"),
                               Some("Service information is required to authenticate"))
  const SessionSaveFailed := Json(500, None, None, Some("Failed to save session"))
  const MissingState := Json(400, None, None, Some("Service information missing from session"))
  const Unauthorized := Json(401, Some(false), Some("Unauthorized"),
                             Some("User not authenticated or service information missing"))
  /** What reading `.id` of an absent `req.user` throws. */
  const NoRequestUser := "Cannot read properties of undefined (reading 'id')"

  function ServiceUnavailable(name: string): HttpReply {
    Json(403, Some(false), Some("Service not found or disabled"), Some("Service '" + name + "' is not available."))
  }

  function InvalidService(name: string): HttpReply {
    Json(400, Some(false), Some("Invalid service"), Some("Service '" + name + "' is not recognized."))
  }

  /** The services `authSuccess` accepts. */
  const ValidServices: seq<string> := ["service1", "service2", "blog"]

  /** The login session; `service` is `req.session.service`. */
  class Session {
    var service: Option<string>

    constructor ()
      ensures service == None
    {
      service := None;
    }
  }

  /** The answer of `discordAuth`: 400 without a service, 500 when the
      session cannot be saved, otherwise the redirect to Discord whose state
      is the service name. */
  function DiscordAuthReply(service: Option<string>, saveFault: bool): (r: HttpReply)
    ensures !Truthy(service) <==> r == MissingService
    ensures r.RedirectToDiscord? <==> Truthy(service) && !saveFault
    ensures r.RedirectToDiscord? ==> r.state == service.value
    ensures Truthy(service) && saveFault ==> r == SessionSaveFailed
  {
    if !Truthy(service) then MissingService
    else if saveFault then SessionSaveFailed
    else RedirectToDiscord(service.value)
  }

  /** `discordAuth`: the session keeps the service unless it is missing; the
      assignment happens before the save, so it stays even when saving fails. */
  method DiscordAuth(session: Session, service: Option<string>, saveFault: bool) returns (r: HttpReply)
    modifies session
    ensures r == DiscordAuthReply(service, saveFault)
    ensures !Truthy(service) ==> session.service == old(session.service)
    ensures Truthy(service) ==> session.service == service
  {
    if !Truthy(service) {
      return MissingService;
    }
    session.service := service;
    if saveFault {
      return SessionSaveFailed;
    }
    return RedirectToDiscord(service.value);
  }

  /** The audit row a route writes: `req.ip || ""` and the `User-Agent`
      header or "". */
  function AuditOf(userId: string, action: string, ip: Option<string>, userAgent: Option<string>, now: string): AuditRecord {
    AuditRecord(userId, action, ip.GetOr(""), userAgent.GetOr(""), now)
  }

  datatype CallbackResult = CallbackResult(reply: HttpReply, userServices: seq<UserServiceGrant>, auditLogs: seq<AuditRecord>)

  /** `discordCallback` on the tables it reads and writes. The service is
      found by the fuzzy `findByNames`, while the grant check asks for a
      service named exactly `state`. A failing grant insert is passed to
      `next` with nothing written. */
  function Callback(users: seq<User>, services: seq<Service>, userServices: seq<UserServiceGrant>,
                    auditLogs: seq<AuditRecord>, state: Option<string>, reqUser: Option<User>,
                    ip: Option<string>, userAgent: Option<string>, now: string, grantFault: bool): (r: CallbackResult)
    ensures !Truthy(state) ==> r == CallbackResult(MissingState, userServices, auditLogs)
    ensures Truthy(state) && (FindByNames(services, state.value).None? || !FindByNames(services, state.value).value.public) ==>
              r == CallbackResult(ServiceUnavailable(state.value), userServices, auditLogs)
    ensures !r.reply.Redirect? ==> r.userServices == userServices && r.auditLogs == auditLogs
    ensures r.reply.Redirect? <==>
              Truthy(state) && FindByNames(services, state.value).Some? && FindByNames(services, state.value).value.public &&
              reqUser.Some? && (!grantFault || UserHasService(users, services, userServices, reqUser.value.id, state.value))
    ensures r.reply.Redirect? ==>
              && r.reply.location == "/auth/success?service=" + state.value
              && r.auditLogs == auditLogs + [AuditOf(reqUser.value.id, "LOGIN", ip, userAgent, now)]
              && (UserHasService(users, services, userServices, reqUser.value.id, state.value) ==> r.userServices == userServices)
              && (!UserHasService(users, services, userServices, reqUser.value.id, state.value) ==>
                    r.userServices == Granted(userServices, reqUser.value.id, FindByNames(services, state.value).value.id))
    ensures r.reply.NextError? && reqUser.Some? ==> r.reply.cause == CreateUserServiceError
  {
    if !Truthy(state) then CallbackResult(MissingState, userServices, auditLogs)
    else
      var found := FindByNames(services, state.value);
      if found.None? || !found.value.public then CallbackResult(ServiceUnavailable(state.value), userServices, auditLogs)
      else if reqUser.None? then CallbackResult(NextError(NoRequestUser), userServices, auditLogs)
      else
        var userId := reqUser.value.id;
        var has := UserHasService(users, services, userServices, userId, state.value);
        if !has && grantFault then CallbackResult(NextError(CreateUserServiceError), userServices, auditLogs)
        else
          var granted := if has then userServices else Granted(userServices, userId, found.value.id);
          CallbackResult(Redirect("/auth/success?service=" + state.value), granted,
                         auditLogs + [AuditOf(userId, "LOGIN", ip, userAgent, now)])
  }

  /** `discordCallback` on the database. */
  method DiscordCallback(db: Database, state: Option<string>, reqUser: Option<User>, ip: Option<string>,
                         userAgent: Option<string>, now: string, grantFault: bool) returns (r: HttpReply)
    modifies db
    ensures CallbackResult(r, db.userServices, db.auditLogs) ==
              Callback(old(db.users), old(db.services), old(db.userServices), old(db.auditLogs),
                       state, reqUser, ip, userAgent, now, grantFault)
    ensures db.users == old(db.users) && db.accounts == old(db.accounts) && db.services == old(db.services)
    ensures db.hookLogs == old(db.hookLogs)
  {
    if !Truthy(state) {
      return MissingState;
    }
    var found := FindByNames(db.services, state.value);
    if found.None? || !found.value.public {
      return ServiceUnavailable(state.value);
    }
    if reqUser.None? {
      return NextError(NoRequestUser);
    }
    var userId := reqUser.value.id;
    var has := UserHasService(db.users, db.services, db.userServices, userId, state.value);
    if !has && found.value.public {
      var granted := CreateUserService(db, userId, found.value.id, grantFault);
      if granted.Fail? {
        return NextError(granted.error);
      }
    }
    db.auditLogs := db.auditLogs + [AuditOf(userId, "LOGIN", ip, userAgent, now)];
    return Redirect("/auth/success?service=" + state.value);
  }

  /** The state `discordAuth` sends comes back to the callback; for a public
      service it leads to the success route for the same name. */
  lemma StateCarriesServiceName(users: seq<User>, services: seq<Service>, userServices: seq<UserServiceGrant>,
                                auditLogs: seq<AuditRecord>, service: string, user: User,
                                ip: Option<string>, userAgent: Option<string>, now: string)
    requires service != ""
    requires FindByNames(services, service).Some? && FindByNames(services, service).value.public
    ensures DiscordAuthReply(Some(service), false) == RedirectToDiscord(service)
    ensures Callback(users, services, userServices, auditLogs, Some(DiscordAuthReply(Some(service), false).state),
                     Some(user), ip, userAgent, now, false).reply == Redirect("/auth/success?service=" + service)
  {
  }

  /** Logging in twice to a service the user had no grant for leaves exactly
      one grant row for it and two LOGIN rows. */
  lemma {:induction false} RepeatedLoginGrantsOnce(users: seq<User>, services: seq<Service>, userServices: seq<UserServiceGrant>,
                                                   auditLogs: seq<AuditRecord>, service: string, user: User,
                                                   ip: Option<string>, userAgent: Option<string>, now1: string, now2: string)
    requires service != ""
    requires FindByNames(services, service).Some? && FindByNames(services, service).value.public
    requires GrantCount(userServices, user.id, FindByNames(services, service).value.id) == 0
    requires !UserHasService(users, services, userServices, user.id, service)
    ensures var first := Callback(users, services, userServices, auditLogs, Some(service), Some(user), ip, userAgent, now1, false);
      var second := Callback(users, services, first.userServices, first.auditLogs, Some(service), Some(user), ip, userAgent, now2, false);
      && second.reply == Redirect("/auth/success?service=" + service)
      && GrantCount(second.userServices, user.id, FindByNames(services, service).value.id) == 1
      && second.auditLogs == auditLogs + [AuditOf(user.id, "LOGIN", ip, userAgent, now1), AuditOf(user.id, "LOGIN", ip, userAgent, now2)]
  {
    var sid := FindByNames(services, service).value.id;
    var first := Callback(users, services, userServices, auditLogs, Some(service), Some(user), ip, userAgent, now1, false);
    GrantedLeavesOneRecord(userServices, user.id, sid);
    assert first.userServices == Granted(userServices, user.id, sid);
    GrantTwiceIsGrantOnce(userServices, user.id, sid);
  }

  /** The checks of `authSuccess`, in order: authenticated with a service
      (401), then the service on the list (400). */
  function CheckSuccessRequest(reqUser: Option<User>, service: Option<string>): (r: Result<User, HttpReply>)
    ensures reqUser.None? || !Truthy(service) <==> r == Failure(Unauthorized)
    ensures reqUser.Some? && Truthy(service) ==>
              (service.value !in ValidServices <==> r == Failure(InvalidService(service.value)))
    ensures r.Success? <==> reqUser.Some? && Truthy(service) && service.value in ValidServices
    ensures r.Success? ==> r.value == reqUser.value
  {
    if reqUser.None? || !Truthy(service) then Failure(Unauthorized)
    else if service.value !in ValidServices then Failure(InvalidService(service.value))
    else Success(reqUser.value)
  }

  function LoginReply(keys: AuthKeys, appUrl: string, user: User, service: string, claimService: Option<string>, nowMs: nat): HttpReply {
    LoginSuccess("Login successful for service " + service, user, service,
                 GenerateAccessToken(keys, appUrl, user, claimService, nowMs),
                 GenerateRefreshToken(keys, appUrl, user, claimService, nowMs))
  }

  /** `authSuccess` as written: the token builders are called without the
      service, so the tokens carry no `service` claim. */
  function AuthSuccessAsWritten(keys: AuthKeys, appUrl: string, reqUser: Option<User>, service: Option<string>, nowMs: nat): (r: HttpReply)
    ensures r.LoginSuccess? <==> CheckSuccessRequest(reqUser, service).Success?
    ensures r.LoginSuccess? ==> r.accessToken.Signed? && r.accessToken.claims.service == None
  {
    match CheckSuccessRequest(reqUser, service)
    case Failure(reply) => reply
    case Success(user) => LoginReply(keys, appUrl, user, service.value, None, nowMs)
  }

  /** `authSuccess` with the service passed to both token builders. */
  function AuthSuccessReply(keys: AuthKeys, appUrl: string, reqUser: Option<User>, service: Option<string>, nowMs: nat): (r: HttpReply)
    ensures r.LoginSuccess? <==> CheckSuccessRequest(reqUser, service).Success?
    ensures !r.LoginSuccess? ==> r == CheckSuccessRequest(reqUser, service).error
    ensures r.LoginSuccess? ==> r.service == service.value && r.user == reqUser.value &&
                                r.greeting == "Login successful for service " + service.value
  {
    match CheckSuccessRequest(reqUser, service)
    case Failure(reply) => reply
    case Success(user) => LoginReply(keys, appUrl, user, service.value, service, nowMs)
  }

  /** As written, the access token a client gets for "blog" does not name
      the service it was issued for. */
  lemma AsWrittenTokenOmitsService(keys: AuthKeys, appUrl: string, user: User, nowMs: nat)
    ensures var r := AuthSuccessAsWritten(keys, appUrl, Some(user), Some("blog"), nowMs);
      r.LoginSuccess? && r.service == "blog" && r.accessToken.claims.service == None &&
      r.refreshToken.claims.service == None
  {
    assert "blog" in ValidServices;
  }

  /** The corrected reply differs from the as-written one only in the
      `service` claim of the two tokens: the same failures, the same greeting,
      user and service, and tokens signed alike over otherwise equal claims. */
  lemma CorrectionOnlyAddsServiceClaim(keys: AuthKeys, appUrl: string, reqUser: Option<User>, service: Option<string>, nowMs: nat)
    ensures var a := AuthSuccessAsWritten(keys, appUrl, reqUser, service, nowMs);
      var c := AuthSuccessReply(keys, appUrl, reqUser, service, nowMs);
      && (!a.LoginSuccess? ==> c == a)
      && (a.LoginSuccess? ==>
            && c.LoginSuccess? && c.greeting == a.greeting && c.user == a.user && c.service == a.service
            && a.accessToken.Signed? && a.refreshToken.Signed?
            && c.accessToken == a.accessToken.(claims := a.accessToken.claims.(service := service))
            && c.refreshToken == a.refreshToken.(claims := a.refreshToken.claims.(service := service)))
  {
  }

  /** With the service passed, both tokens verify under their own key class
      to claims naming the service the reply echoes. */
  lemma IssuedTokensNameService(keys: AuthKeys, appUrl: string, reqUser: Option<User>, service: Option<string>, nowMs: nat)
    requires PairedKeys(keys)
    ensures var r := AuthSuccessReply(keys, appUrl, reqUser, service, nowMs);
      r.LoginSuccess? ==>
        && VerifyAccessToken(keys, r.accessToken, nowMs).Some?
        && VerifyAccessToken(keys, r.accessToken, nowMs).value.claims.service == Some(r.service)
        && VerifyRefreshToken(keys, r.refreshToken, nowMs).Some?
        && VerifyRefreshToken(keys, r.refreshToken, nowMs).value.claims.service == Some(r.service)
        && VerifyAccessToken(keys, r.accessToken, nowMs).value.claims.sub == r.user.id
  {
    var r := AuthSuccessReply(keys, appUrl, reqUser, service, nowMs);
    if r.LoginSuccess? {
      AccessTokenRoundTrip(keys, appUrl, reqUser.value, service, nowMs, nowMs);
      RefreshTokenRoundTrip(keys, appUrl, reqUser.value, service, nowMs, nowMs);
    }
  }

  /** `authSuccess` on the database, with the service passed to the token
      builders (the corrected reply): the ACCESS_SERVICE audit row is written
      only when the tokens are issued. */
  method AuthSuccess(db: Database, keys: AuthKeys, appUrl: string, reqUser: Option<User>, service: Option<string>,
                     ip: Option<string>, userAgent: Option<string>, nowMs: nat, now: string) returns (r: HttpReply)
    modifies db
    ensures r == AuthSuccessReply(keys, appUrl, reqUser, service, nowMs)
    ensures r.LoginSuccess? ==> db.auditLogs == old(db.auditLogs) + [AuditOf(r.user.id, "ACCESS_SERVICE", ip, userAgent, now)]
    ensures !r.LoginSuccess? ==> db.auditLogs == old(db.auditLogs)
    ensures db.users == old(db.users) && db.accounts == old(db.accounts) && db.services == old(db.services)
    ensures db.userServices == old(db.userServices) && db.hookLogs == old(db.hookLogs)
  {
    var checked := CheckSuccessRequest(reqUser, service);
    if checked.Failure? {
      return checked.error;
    }
    var user := checked.value;
    r := LoginReply(keys, appUrl, user, service.value, service, nowMs);
    db.auditLogs := db.auditLogs + [AuditOf(user.id, "ACCESS_SERVICE", ip, userAgent, now)];
  }
}
