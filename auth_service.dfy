/** `AuthService`: access and refresh tokens and the GitHub primary email.
    Signing is symbolic: a signed token records its algorithm, claims, expiry
    and the key that signed it, and an RS256 signature checks out under a
    public key exactly when it was made with the private key of the same RSA
    pair. */
module AuthService {
  import opened Wrappers
  import opened Lists
  import opened Store

  /** Key material read from a PEM file, named by the RSA pair it belongs to. */
  datatype RsaKey = RsaKey(pair: nat, isPrivate: bool)

  /** The `alg` a token's header names. */
  datatype Alg = RS256 | HS256 | NoneAlg

  datatype Claims = Claims(sub: string, name: string, iss: string, iat: int, service: Option<string>)

  /** A presented token: either a signed compact JWS, or text that does not
      parse as one. */
  datatype Jwt =
    | Signed(alg: Alg, claims: Claims, exp: int, signer: RsaKey)
    | Malformed(text: string)

  /** What `jwt.verify` returns: the claims together with `exp`. */
  datatype Payload = Payload(claims: Claims, exp: int)

  /** The four key files the service reads once, at construction. */
  datatype AuthKeys = AuthKeys(privateAccess: RsaKey, publicAccess: RsaKey, privateRefresh: RsaKey, publicRefresh: RsaKey)

  /** Each private key and the public key of the same class form one pair. */
  predicate PairedKeys(keys: AuthKeys) {
    && keys.privateAccess == RsaKey(keys.publicAccess.pair, true) && !keys.publicAccess.isPrivate
    && keys.privateRefresh == RsaKey(keys.publicRefresh.pair, true) && !keys.publicRefresh.isPrivate
  }

  /** The access pair and the refresh pair are different pairs. */
  predicate DistinctPairs(keys: AuthKeys) {
    keys.publicAccess.pair != keys.publicRefresh.pair
  }

  /** `expiresIn: "1d"` and `expiresIn: "15d"`, in seconds. */
  const ACCESS_TOKEN_LIFETIME: int := 86400
  const REFRESH_TOKEN_LIFETIME: int := 15 * 86400

  /** The claims both token kinds carry; `nowMs` is `Date.now()`. */
  function TokenClaims(user: User, service: Option<string>, appUrl: string, nowMs: nat): Claims {
    Claims(user.id, user.username, appUrl, nowMs / 1000, service)
  }

  /** `jwt.sign(claims, key, { algorithm, expiresIn })`: the expiry counts
      from the `iat` claim. */
  function Sign(claims: Claims, key: RsaKey, alg: Alg, lifetime: int): Jwt {
    Signed(alg, claims, claims.iat + lifetime, key)
  }

  /** `jwt.verify(token, key, { algorithms })` on a clock reading `nowSec`:
      the payload, or `None` where the library throws. */
  function JwtVerify(token: Jwt, key: RsaKey, algorithms: set<Alg>, nowSec: int): Option<Payload> {
    match token
    case Malformed(_) => None
    case Signed(alg, claims, exp, signer) =>
      if alg !in algorithms then None
      else if !(signer.isPrivate && !key.isPrivate && signer.pair == key.pair) then None
      else if nowSec >= exp then None
      else Some(Payload(claims, exp))
  }

  /** `generateAccessToken`. `service` is `None` when a caller leaves the
      argument out. */
  function GenerateAccessToken(keys: AuthKeys, appUrl: string, user: User, service: Option<string>, nowMs: nat): Jwt {
    Sign(TokenClaims(user, service, appUrl, nowMs), keys.privateAccess, RS256, ACCESS_TOKEN_LIFETIME)
  }

  /** `generateRefreshToken`. */
  function GenerateRefreshToken(keys: AuthKeys, appUrl: string, user: User, service: Option<string>, nowMs: nat): Jwt {
    Sign(TokenClaims(user, service, appUrl, nowMs), keys.privateRefresh, RS256, REFRESH_TOKEN_LIFETIME)
  }

  /** `verifyAccessToken`: accepts only RS256 tokens signed by the access
      pair that have not expired; never fails, answers `None` instead. */
  function VerifyAccessToken(keys: AuthKeys, token: Jwt, nowMs: nat): (r: Option<Payload>)
    ensures r.Some? ==> token.Signed? && token.alg == RS256 && token.signer.isPrivate &&
                        token.signer.pair == keys.publicAccess.pair && !keys.publicAccess.isPrivate
    ensures r.Some? ==> nowMs / 1000 < token.exp && r.value == Payload(token.claims, token.exp)
  {
    JwtVerify(token, keys.publicAccess, {RS256}, nowMs / 1000)
  }

  /** `verifyRefreshToken`: the same against the public refresh key only. */
  function VerifyRefreshToken(keys: AuthKeys, token: Jwt, nowMs: nat): (r: Option<Payload>)
    ensures r.Some? ==> token.Signed? && token.alg == RS256 && token.signer.isPrivate &&
                        token.signer.pair == keys.publicRefresh.pair && !keys.publicRefresh.isPrivate
    ensures r.Some? ==> nowMs / 1000 < token.exp && r.value == Payload(token.claims, token.exp)
  {
    JwtVerify(token, keys.publicRefresh, {RS256}, nowMs / 1000)
  }

  /** Access and refresh tokens carry the same claims (subject, name, issuer,
      issue time in whole seconds, service); they differ in signing key and
      lifetime only. */
  lemma TokensShareClaims(keys: AuthKeys, appUrl: string, user: User, service: Option<string>, nowMs: nat)
    ensures var a, r := GenerateAccessToken(keys, appUrl, user, service, nowMs), GenerateRefreshToken(keys, appUrl, user, service, nowMs);
      && a.Signed? && r.Signed? && a.claims == r.claims
      && a.claims.sub == user.id && a.claims.name == user.username && a.claims.iss == appUrl
      && a.claims.iat * 1000 <= nowMs < (a.claims.iat + 1) * 1000 && a.claims.service == service
      && a.alg == RS256 && r.alg == RS256
      && a.signer == keys.privateAccess && r.signer == keys.privateRefresh
      && a.exp == a.claims.iat + 86400 && r.exp == r.claims.iat + 15 * 86400
  {
  }

  /** With the access pair in place, an access token verifies as an access
      token, returning its claims, for exactly one day. */
  lemma AccessTokenRoundTrip(keys: AuthKeys, appUrl: string, user: User, service: Option<string>, nowMs: nat, laterMs: nat)
    requires PairedKeys(keys)
    ensures var t := GenerateAccessToken(keys, appUrl, user, service, nowMs);
      VerifyAccessToken(keys, t, laterMs) ==
        if laterMs / 1000 < nowMs / 1000 + ACCESS_TOKEN_LIFETIME
        then Some(Payload(TokenClaims(user, service, appUrl, nowMs), nowMs / 1000 + ACCESS_TOKEN_LIFETIME))
        else None
  {
  }

  /** The same for refresh tokens, for fifteen days. */
  lemma RefreshTokenRoundTrip(keys: AuthKeys, appUrl: string, user: User, service: Option<string>, nowMs: nat, laterMs: nat)
    requires PairedKeys(keys)
    ensures var t := GenerateRefreshToken(keys, appUrl, user, service, nowMs);
      VerifyRefreshToken(keys, t, laterMs) ==
        if laterMs / 1000 < nowMs / 1000 + REFRESH_TOKEN_LIFETIME
        then Some(Payload(TokenClaims(user, service, appUrl, nowMs), nowMs / 1000 + REFRESH_TOKEN_LIFETIME))
        else None
  {
  }

  /** With distinct pairs, a token verifies only as the class whose key
      signed it: an access token is never a valid refresh token, and back. */
  lemma TokenClassesDoNotCross(keys: AuthKeys, appUrl: string, user: User, service: Option<string>, nowMs: nat, laterMs: nat)
    requires PairedKeys(keys) && DistinctPairs(keys)
    ensures VerifyRefreshToken(keys, GenerateAccessToken(keys, appUrl, user, service, nowMs), laterMs).None?
    ensures VerifyAccessToken(keys, GenerateRefreshToken(keys, appUrl, user, service, nowMs), laterMs).None?
  {
  }

  /** A token naming another algorithm is refused whatever it claims, so a
      token "signed" with HS256 under the public key's text is never accepted. */
  lemma OnlyRS256IsAccepted(keys: AuthKeys, claims: Claims, exp: int, signer: RsaKey, nowMs: nat)
    ensures VerifyAccessToken(keys, Signed(HS256, claims, exp, signer), nowMs).None?
    ensures VerifyRefreshToken(keys, Signed(NoneAlg, claims, exp, signer), nowMs).None?
  {
  }

  /** One entry of the GitHub `/user/emails` answer. */
  datatype GitHubEmail = GitHubEmail(email: Option<string>, primary: bool)

  /** The answer to the `/user/emails` request: its `ok` flag and its JSON
      body (`None` when it is not a list of entries), or a failed fetch. */
  datatype GitHubReply = GitHubReply(ok: bool, entries: Option<seq<GitHubEmail>>) | FetchFailed(message: string)

  const GitHubEmailError := "Failed to retrieve primary email from GitHub"

  /** `k` is the first entry marked primary (`emails.find(e => e.primary)`). */
  predicate FirstPrimary(entries: seq<GitHubEmail>, k: int) {
    0 <= k < |entries| && entries[k].primary && forall j :: 0 <= j < k ==> !entries[j].primary
  }

  /** `fetchGitHubEmails`: the email of the first entry marked primary. A
      non-ok answer, a bad body, no primary entry, or an empty email all fail
      with one message; the email is returned whenever there is one. */
  function FetchGitHubEmails(reply: GitHubReply): (r: Result<string, string>)
    ensures r.Failure? ==> r.error == GitHubEmailError
    ensures r.Success? ==> reply.GitHubReply? && reply.ok && reply.entries.Some?
    ensures r.Success? ==> exists k ::
      FirstPrimary(reply.entries.value, k) && reply.entries.value[k].email == Some(r.value) && r.value != ""
    ensures reply.GitHubReply? && reply.ok && reply.entries.Some? ==> forall k ::
      (FirstPrimary(reply.entries.value, k) && reply.entries.value[k].email.Some? && reply.entries.value[k].email.value != "")
      ==> r == Success(reply.entries.value[k].email.value)
    ensures (reply.GitHubReply? && reply.ok && reply.entries.Some? &&
             forall j :: 0 <= j < |reply.entries.value| ==> !reply.entries.value[j].primary) ==> r.Failure?
  {
    if reply.FetchFailed? || !reply.ok || reply.entries.None? then Failure(GitHubEmailError)
    else
      match FirstIndex(reply.entries.value, (e: GitHubEmail) => e.primary)
      case None => Failure(GitHubEmailError)
      case Some(k) =>
        var entry := reply.entries.value[k];
        if entry.email.None? || entry.email.value == "" then Failure(GitHubEmailError)
        else Success(entry.email.value)
  }
}
