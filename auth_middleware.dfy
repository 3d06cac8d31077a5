/** `AuthMiddleware`: the two request guards. Each is a decision function
    giving the verdict, and a method applying the verdict to the request and
    response of one exchange. Token text is turned into a token by `decode`,
    which the model leaves abstract. */
module AuthMiddleware {
  import opened Wrappers
  import opened Strings
  import opened Lists
  import opened Store
  import opened AuthService

  /** The JSON body of an error response; `success` is absent from one of them. */
  datatype ErrorBody = ErrorBody(success: Option<bool>, message: string, error: Option<string>)

  /** What a guard does: call `next` with `req.user` set to a user or to the
      decoded claims, or answer with a status and a body. */
  datatype Verdict =
    | Proceed(user: User)
    | ProceedWithPayload(payload: Payload)
    | Reject(status: int, body: ErrorBody)

  const NoToken := ErrorBody(Some(false), "Authorization failed!", Some("No token provided"))
  const InvalidToken := ErrorBody(Some(false), "Authorization failed!", Some("Invalid token"))
  const UnknownUser := ErrorBody(Some(false), "Authorization failed!", Some("User not found"))
  const InternalError := ErrorBody(Some(false), "Internal Server Error", None)
  const RefreshMissing := ErrorBody(Some(false), "Refresh token missing!", Some("No refresh token provided"))
  const RefreshInvalid := ErrorBody(None, "Invalid refresh token", None)

  predicate IsBearer(authorization: Option<string>) {
    authorization.Some? && "Bearer " <= authorization.value
  }

  lemma BearerFirstField(header: string)
    requires "Bearer " <= header
    ensures FirstField(header, ' ') == "Bearer"
  {
    var f := FirstField(header, ' ');
    assert forall k :: 0 <= k < 6 ==> header[k] != ' ';
    assert header[6] == ' ';
    assert f == header[..|f|];
  }

  /** The token a request presents: with an `Authorization` header starting
      with "Bearer ", the text after that up to the next space (possibly
      empty); otherwise the `accessToken` cookie. */
  function RequestToken(authorization: Option<string>, accessCookie: Option<string>): (r: Option<string>)
    ensures !IsBearer(authorization) ==> r == accessCookie
    ensures IsBearer(authorization) ==> r.Some? && ' ' !in r.value && "Bearer " + r.value <= authorization.value
    ensures IsBearer(authorization) ==>
              var n := |"Bearer "| + |r.value|; n < |authorization.value| ==> authorization.value[n] == ' '
  {
    if IsBearer(authorization) then
      BearerFirstField(authorization.value);
      assert "Bearer" + [' '] == "Bearer ";
      SecondField(authorization.value, ' ')
    else accessCookie
  }

  /** `authenticate`: token presence, then its verification, then the user
      lookup by `sub` (`lookupFault` makes the lookup throw). */
  function AuthenticateDecision(keys: AuthKeys, decode: string -> Jwt, authorization: Option<string>,
                                accessCookie: Option<string>, users: seq<User>, lookupFault: bool, nowMs: nat): (r: Verdict)
    ensures var token := RequestToken(authorization, accessCookie);
      && (!Truthy(token) ==> r == Reject(401, NoToken))
      && (Truthy(token) && VerifyAccessToken(keys, decode(token.value), nowMs).None? ==> r == Reject(401, InvalidToken))
    ensures var token := RequestToken(authorization, accessCookie);
      Truthy(token) && VerifyAccessToken(keys, decode(token.value), nowMs).Some? ==>
        && (lookupFault ==> r == Reject(500, InternalError))
        && (!lookupFault && (forall i :: 0 <= i < |users| ==>
              users[i].id != VerifyAccessToken(keys, decode(token.value), nowMs).value.claims.sub) ==>
              r == Reject(401, UnknownUser))
    ensures !r.ProceedWithPayload?
    ensures r.Reject? ==> r.status == 401 || (r.status == 500 && lookupFault)
    ensures r.Proceed? ==>
      var token := RequestToken(authorization, accessCookie);
      Truthy(token) && !lookupFault &&
      var p := VerifyAccessToken(keys, decode(token.value), nowMs);
      p.Some? && r.user in users && r.user.id == p.value.claims.sub &&
      forall i :: 0 <= i < |users| && users[i].id == r.user.id ==> r.user == users[i] || exists j :: 0 <= j < i && users[j] == r.user
    ensures r.Proceed? <==>
      var token := RequestToken(authorization, accessCookie);
      Truthy(token) && !lookupFault &&
      var p := VerifyAccessToken(keys, decode(token.value), nowMs);
      p.Some? && exists i :: 0 <= i < |users| && users[i].id == p.value.claims.sub
  {
    var token := RequestToken(authorization, accessCookie);
    if !Truthy(token) then Reject(401, NoToken)
    else
      var payload := VerifyAccessToken(keys, decode(token.value), nowMs);
      if payload.None? then Reject(401, InvalidToken)
      else if lookupFault then Reject(500, InternalError)
      else
        match Find(users, (u: User) => u.id == payload.value.claims.sub)
        case None => Reject(401, UnknownUser)
        case Some(user) => Proceed(user)
  }

  /** The middleware's `verifyRefreshToken`: only the `refreshToken` cookie is
      read. */
  function RefreshDecision(keys: AuthKeys, decode: string -> Jwt, refreshCookie: Option<string>, nowMs: nat): (r: Verdict)
    ensures !Truthy(refreshCookie) <==> r == Reject(401, RefreshMissing)
    ensures Truthy(refreshCookie) && VerifyRefreshToken(keys, decode(refreshCookie.value), nowMs).None? <==>
              r == Reject(401, RefreshInvalid)
    ensures r.ProceedWithPayload? <==>
              Truthy(refreshCookie) && VerifyRefreshToken(keys, decode(refreshCookie.value), nowMs).Some?
    ensures r.ProceedWithPayload? ==> VerifyRefreshToken(keys, decode(refreshCookie.value), nowMs) == Some(r.payload)
    ensures !r.Proceed?
  {
    if !Truthy(refreshCookie) then Reject(401, RefreshMissing)
    else
      match VerifyRefreshToken(keys, decode(refreshCookie.value), nowMs)
      case None => Reject(401, RefreshInvalid)
      case Some(payload) => ProceedWithPayload(payload)
  }

  /** What a guard may attach to the request as `req.user`. */
  datatype RequestUser = AuthenticatedUser(user: User) | DecodedClaims(payload: Payload)

  datatype Response = Response(status: int, body: ErrorBody)

  /** One request/response exchange as the guards see it. */
  class Exchange {
    var reqUser: Option<RequestUser>
    var nextCalls: nat
    var response: Option<Response>

    constructor ()
      ensures reqUser == None && nextCalls == 0 && response == None
    {
      reqUser := None;
      nextCalls := 0;
      response := None;
    }

    /** Carry out a verdict: set `req.user` and call `next` once, or send
        the response and leave `next` uncalled. */
    method Apply(v: Verdict)
      modifies this
      ensures v.Reject? ==> response == Some(Response(v.status, v.body)) &&
                            reqUser == old(reqUser) && nextCalls == old(nextCalls)
      ensures v.Proceed? ==> reqUser == Some(AuthenticatedUser(v.user)) &&
                             nextCalls == old(nextCalls) + 1 && response == old(response)
      ensures v.ProceedWithPayload? ==> reqUser == Some(DecodedClaims(v.payload)) &&
                                        nextCalls == old(nextCalls) + 1 && response == old(response)
    {
      match v
      case Reject(status, body) => response := Some(Response(status, body));
      case Proceed(user) =>
        reqUser := Some(AuthenticatedUser(user));
        nextCalls := nextCalls + 1;
      case ProceedWithPayload(payload) =>
        reqUser := Some(DecodedClaims(payload));
        nextCalls := nextCalls + 1;
    }
  }

  /** `authenticate` on one exchange. */
  method Authenticate(ex: Exchange, keys: AuthKeys, decode: string -> Jwt, authorization: Option<string>,
                      accessCookie: Option<string>, users: seq<User>, lookupFault: bool, nowMs: nat)
    modifies ex
    ensures var v := AuthenticateDecision(keys, decode, authorization, accessCookie, users, lookupFault, nowMs);
      if v.Proceed? then ex.reqUser == Some(AuthenticatedUser(v.user)) && ex.nextCalls == old(ex.nextCalls) + 1 &&
                         ex.response == old(ex.response)
      else ex.response == Some(Response(v.status, v.body)) && ex.reqUser == old(ex.reqUser) &&
           ex.nextCalls == old(ex.nextCalls)
  {
    ex.Apply(AuthenticateDecision(keys, decode, authorization, accessCookie, users, lookupFault, nowMs));
  }

  /** The middleware's `verifyRefreshToken` on one exchange. */
  method VerifyRefresh(ex: Exchange, keys: AuthKeys, decode: string -> Jwt, refreshCookie: Option<string>, nowMs: nat)
    modifies ex
    ensures var v := RefreshDecision(keys, decode, refreshCookie, nowMs);
      if v.ProceedWithPayload? then ex.reqUser == Some(DecodedClaims(v.payload)) &&
                                    ex.nextCalls == old(ex.nextCalls) + 1 && ex.response == old(ex.response)
      else ex.response == Some(Response(v.status, v.body)) && ex.reqUser == old(ex.reqUser) &&
           ex.nextCalls == old(ex.nextCalls)
  {
    ex.Apply(RefreshDecision(keys, decode, refreshCookie, nowMs));
  }

  /** A bearer header carrying a token without spaces presents exactly that token. */
  lemma BearerTokenIsPresented(text: string, accessCookie: Option<string>)
    requires ' ' !in text
    ensures RequestToken(Some("Bearer " + text), accessCookie) == Some(text)
  {
    var header := "Bearer " + text;
    assert "Bearer " <= header;
    var r := RequestToken(Some(header), accessCookie).value;
    assert forall k :: 0 <= k < |text| ==> header[7 + k] == text[k] && text[k] != ' ';
    assert |r| == |text|;
    assert "Bearer " + r == header;
    assert r == ("Bearer " + r)[7..] == header[7..] == text;
  }

  /** An access token this service issued, sent as a bearer token within its
      lifetime by a user in the table, passes `authenticate` with that user's id. */
  lemma IssuedAccessTokenAuthenticates(keys: AuthKeys, decode: string -> Jwt, text: string, appUrl: string,
                                       user: User, service: Option<string>, nowMs: nat, laterMs: nat,
                                       accessCookie: Option<string>, users: seq<User>)
    requires PairedKeys(keys) && user in users
    requires text != "" && ' ' !in text && decode(text) == GenerateAccessToken(keys, appUrl, user, service, nowMs)
    requires laterMs / 1000 < nowMs / 1000 + ACCESS_TOKEN_LIFETIME
    ensures var v := AuthenticateDecision(keys, decode, Some("Bearer " + text), accessCookie, users, false, laterMs);
      v.Proceed? && v.user.id == user.id
  {
    BearerTokenIsPresented(text, accessCookie);
    AccessTokenRoundTrip(keys, appUrl, user, service, nowMs, laterMs);
  }

  /** A refresh token presented as a bearer token is an invalid access token. */
  lemma RefreshTokenDoesNotAuthenticate(keys: AuthKeys, decode: string -> Jwt, text: string, appUrl: string,
                                        user: User, service: Option<string>, nowMs: nat, laterMs: nat,
                                        accessCookie: Option<string>, users: seq<User>, lookupFault: bool)
    requires PairedKeys(keys) && DistinctPairs(keys)
    requires text != "" && ' ' !in text && decode(text) == GenerateRefreshToken(keys, appUrl, user, service, nowMs)
    ensures AuthenticateDecision(keys, decode, Some("Bearer " + text), accessCookie, users, lookupFault, laterMs) ==
              Reject(401, InvalidToken)
  {
    BearerTokenIsPresented(text, accessCookie);
    TokenClassesDoNotCross(keys, appUrl, user, service, nowMs, laterMs);
  }

  /** A header of just "Bearer " presents the empty token, so the cookie is
      not consulted and the answer is "No token provided". */
  lemma EmptyBearerIgnoresCookie(keys: AuthKeys, decode: string -> Jwt, accessCookie: Option<string>,
                                 users: seq<User>, lookupFault: bool, nowMs: nat)
    ensures AuthenticateDecision(keys, decode, Some("Bearer "), accessCookie, users, lookupFault, nowMs) ==
              Reject(401, NoToken)
  {
    BearerTokenIsPresented("", accessCookie);
    assert "Bearer " + "" == "Bearer ";
  }

  /** An issued refresh token in the cookie, within its lifetime, passes the
      refresh guard with its own claims. */
  lemma IssuedRefreshTokenPasses(keys: AuthKeys, decode: string -> Jwt, text: string, appUrl: string,
                                 user: User, service: Option<string>, nowMs: nat, laterMs: nat)
    requires PairedKeys(keys)
    requires text != "" && decode(text) == GenerateRefreshToken(keys, appUrl, user, service, nowMs)
    requires laterMs / 1000 < nowMs / 1000 + REFRESH_TOKEN_LIFETIME
    ensures RefreshDecision(keys, decode, Some(text), laterMs) ==
              ProceedWithPayload(Payload(TokenClaims(user, service, appUrl, nowMs), nowMs / 1000 + REFRESH_TOKEN_LIFETIME))
  {
    RefreshTokenRoundTrip(keys, appUrl, user, service, nowMs, laterMs);
  }
}
