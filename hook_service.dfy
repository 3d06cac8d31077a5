/** `HookService.sendLoginNotification`: tell a service's microservices about
    a login. One body, one hook token and one signature are built, then the
    service's URLs are tried in order; each attempt appends one hook-log row,
    a thrown fetch moves on to the next URL, and the first HTTP response ends
    the walk. Fetch outcomes are an input indexed by attempt; the JWT and the
    HMAC-SHA256 hex digest are symbolic values. */
module HookService {
  import opened Wrappers
  import opened Store
  import opened ServicesService

  /** What the attempt with a given index got back from `fetch`. */
  datatype FetchOutcome = Resp(status: int, ok: bool) | Throw(message: string)

  /** The login being announced. */
  datatype LoginContext = LoginContext(user: User, serviceName: string, ip: string, userAgent: string, timestamp: string)

  /** The JSON body sent to every URL. */
  datatype LoginEvent = LoginEvent(event: string, user: User, service: string, ip: string, userAgent: string, timestamp: string)

  datatype HookClaims = HookClaims(userId: string, service: string, ip: string, userAgent: string, timestamp: string)

  /** `jwt.sign(claims, hookSecret, { expiresIn: "5m" })` with the default
      HS256: `exp` counts from the `iat` the library stamps. */
  datatype HookToken = HookToken(claims: HookClaims, secret: string, iat: int, exp: int)

  /** `createHmac("sha256", secret).update(body).digest("hex")`. */
  datatype Signature = HmacSha256Hex(body: LoginEvent, secret: string)

  /** One `fetch`: the URL, the body and the two hook headers. */
  datatype HookRequest = HookRequest(url: string, body: LoginEvent, token: HookToken, signature: Signature)

  const HOOK_TOKEN_LIFETIME: int := 300

  function Body(ctx: LoginContext): (b: LoginEvent)
    ensures b.event == "user.login" && b.user == ctx.user && b.service == ctx.serviceName
    ensures b.ip == ctx.ip && b.userAgent == ctx.userAgent && b.timestamp == ctx.timestamp
  {
    LoginEvent("user.login", ctx.user, ctx.serviceName, ctx.ip, ctx.userAgent, ctx.timestamp)
  }

  function Token(ctx: LoginContext, secret: string, nowMs: nat): (t: HookToken)
    ensures t.claims.userId == ctx.user.id && t.claims.service == ctx.serviceName
    ensures t.secret == secret && t.exp == t.iat + 300 && t.iat == nowMs / 1000
  {
    HookToken(HookClaims(ctx.user.id, ctx.serviceName, ctx.ip, ctx.userAgent, ctx.timestamp), secret, nowMs / 1000,
              nowMs / 1000 + HOOK_TOKEN_LIFETIME)
  }

  /** `generateSignature`. */
  function Sign(body: LoginEvent, secret: string): Signature {
    HmacSha256Hex(body, secret)
  }

  /** The hook-log row of one attempt: a response is "success" exactly when
      it is ok and logs the whole user; a throw logs "failed", code 500, the
      error message and only the user's id. */
  function Row(serviceId: string, url: string, o: FetchOutcome, ctx: LoginContext): (r: HookLog)
    ensures r.serviceId == serviceId && r.url == url && r.responseBody.None?
    ensures r.status == "success" <==> o.Resp? && o.ok
    ensures r.status == "failed" <==> !(o.Resp? && o.ok)
    ensures o.Resp? ==> r.statusCode == o.status && r.errorMessage.None? &&
                        r.requestBody == DeliveredBody(ctx.user, ctx.serviceName, ctx.ip, ctx.userAgent, ctx.timestamp)
    ensures o.Throw? ==> r.statusCode == 500 && r.errorMessage == Some(o.message) &&
                         r.requestBody == FailedBody(ctx.user.id, ctx.serviceName, ctx.ip, ctx.userAgent, ctx.timestamp)
  {
    match o
    case Resp(status, ok) =>
      HookLog(serviceId, url, if ok then "success" else "failed", status,
              DeliveredBody(ctx.user, ctx.serviceName, ctx.ip, ctx.userAgent, ctx.timestamp), None, None)
    case Throw(message) =>
      HookLog(serviceId, url, "failed", 500,
              FailedBody(ctx.user.id, ctx.serviceName, ctx.ip, ctx.userAgent, ctx.timestamp), None, Some(message))
  }

  /** The rows of the first `n` attempts, in attempt order. */
  function Rows(serviceId: string, urls: seq<string>, outcome: nat -> FetchOutcome, ctx: LoginContext, n: nat): (r: seq<HookLog>)
    requires n <= |urls|
    ensures |r| == n
  {
    if n == 0 then [] else Rows(serviceId, urls, outcome, ctx, n - 1) + [Row(serviceId, urls[n - 1], outcome(n - 1), ctx)]
  }

  /** Row `i` of the log is the row of the `i`-th URL's attempt. */
  lemma {:induction false} RowsInOrder(serviceId: string, urls: seq<string>, outcome: nat -> FetchOutcome, ctx: LoginContext, n: nat)
    requires n <= |urls|
    ensures forall i :: 0 <= i < n ==> Rows(serviceId, urls, outcome, ctx, n)[i] == Row(serviceId, urls[i], outcome(i), ctx)
  {
    if n > 0 {
      RowsInOrder(serviceId, urls, outcome, ctx, n - 1);
    }
  }

  /** The requests of the first `n` attempts: the URLs in list order, each
      with the same body, token and signature. */
  function Requests(urls: seq<string>, body: LoginEvent, token: HookToken, signature: Signature, n: nat): (r: seq<HookRequest>)
    requires n <= |urls|
    ensures |r| == n
  {
    if n == 0 then [] else Requests(urls, body, token, signature, n - 1) + [HookRequest(urls[n - 1], body, token, signature)]
  }

  /** Request `i` goes to the `i`-th URL, and every request carries the same
      body, token and signature. */
  lemma {:induction false} RequestsInOrder(urls: seq<string>, body: LoginEvent, token: HookToken, signature: Signature, n: nat)
    requires n <= |urls|
    ensures forall i :: 0 <= i < n ==> Requests(urls, body, token, signature, n)[i] == HookRequest(urls[i], body, token, signature)
  {
    if n > 0 {
      RequestsInOrder(urls, body, token, signature, n - 1);
    }
  }

  /** How many of `count` URLs are tried from attempt `i` on: up to and
      including the first that answers, or all of them when every fetch
      throws. */
  function Attempts(count: nat, outcome: nat -> FetchOutcome, i: nat): (n: nat)
    requires i <= count
    ensures i <= n <= count
    decreases count - i
  {
    if i == count then count
    else if outcome(i).Resp? then i + 1
    else Attempts(count, outcome, i + 1)
  }

  /** The first answering URL ends the walk: later URLs are never tried. */
  lemma {:induction false} FirstResponseEndsWalk(count: nat, outcome: nat -> FetchOutcome, i: nat, k: nat)
    requires i <= k < count && outcome(k).Resp?
    requires forall j :: i <= j < k ==> outcome(j).Throw?
    ensures Attempts(count, outcome, i) == k + 1
    decreases k - i
  {
    if i < k {
      FirstResponseEndsWalk(count, outcome, i + 1, k);
    }
  }

  /** When every fetch throws, every URL is tried. */
  lemma {:induction false} AllThrowTriesAll(count: nat, outcome: nat -> FetchOutcome, i: nat)
    requires i <= count
    requires forall j :: i <= j < count ==> outcome(j).Throw?
    ensures Attempts(count, outcome, i) == count
    decreases count - i
  {
    if i < count {
      AllThrowTriesAll(count, outcome, i + 1);
    }
  }

  /** One more attempt appends its row to the log. */
  lemma {:induction false} RowsGrow(before: seq<HookLog>, serviceId: string, urls: seq<string>,
                                    outcome: nat -> FetchOutcome, ctx: LoginContext, i: nat)
    requires i < |urls|
    ensures before + Rows(serviceId, urls, outcome, ctx, i + 1) ==
            (before + Rows(serviceId, urls, outcome, ctx, i)) + [Row(serviceId, urls[i], outcome(i), ctx)]
  {
    var rows := Rows(serviceId, urls, outcome, ctx, i);
    var row := Row(serviceId, urls[i], outcome(i), ctx);
    assert Rows(serviceId, urls, outcome, ctx, i + 1) == rows + [row];
    assert before + (rows + [row]) == (before + rows) + [row];
  }

  /** `logHook`: appends one row to the hook log and writes nothing else. */
  method LogHook(db: Database, row: HookLog)
    modifies db
    ensures db.hookLogs == old(db.hookLogs) + [row]
    ensures db.users == old(db.users) && db.accounts == old(db.accounts) && db.services == old(db.services)
    ensures db.userServices == old(db.userServices) && db.auditLogs == old(db.auditLogs)
  {
    db.hookLogs := db.hookLogs + [row];
  }

  /** The walk over one service's URLs. */
  method NotifyAll(db: Database, svc: Service, ctx: LoginContext, nowMs: nat, outcome: nat -> FetchOutcome)
    returns (delivered: bool, sent: seq<HookRequest>)
    modifies db
    ensures var urls := svc.microServicesUrl;
      var n := Attempts(|urls|, outcome, 0);
      && db.hookLogs == old(db.hookLogs) + Rows(svc.id, urls, outcome, ctx, n)
      && sent == Requests(urls, Body(ctx), Token(ctx, svc.hookSecret, nowMs), Sign(Body(ctx), svc.hookSecret), n)
      && (delivered <==> n > 0 && outcome(n - 1).Resp? && outcome(n - 1).ok)
    ensures db.users == old(db.users) && db.accounts == old(db.accounts) && db.services == old(db.services)
    ensures db.userServices == old(db.userServices) && db.auditLogs == old(db.auditLogs)
  {
    var urls := svc.microServicesUrl;
    var body := Body(ctx);
    var token := Token(ctx, svc.hookSecret, nowMs);
    var signature := Sign(body, svc.hookSecret);
    ghost var logs0 := db.hookLogs;
    sent := [];
    delivered := false;
    var answered := false;
    var i := 0;
    while i < |urls| && !answered
      invariant 0 <= i <= |urls|
      invariant db.hookLogs == logs0 + Rows(svc.id, urls, outcome, ctx, i)
      invariant sent == Requests(urls, body, token, signature, i)
      invariant !answered ==> !delivered && forall j :: 0 <= j < i ==> outcome(j).Throw?
      invariant answered ==> 0 < i && Attempts(|urls|, outcome, 0) == i && outcome(i - 1).Resp? && delivered == outcome(i - 1).ok
      invariant db.services == old(db.services) && db.users == old(db.users) && db.accounts == old(db.accounts)
      invariant db.userServices == old(db.userServices) && db.auditLogs == old(db.auditLogs)
    {
      sent := sent + [HookRequest(urls[i], body, token, signature)];
      RowsGrow(logs0, svc.id, urls, outcome, ctx, i);
      LogHook(db, Row(svc.id, urls[i], outcome(i), ctx));
      if outcome(i).Resp? {
        FirstResponseEndsWalk(|urls|, outcome, 0, i);
        delivered := outcome(i).ok;
        answered := true;
      }
      i := i + 1;
    }
    if !answered {
      AllThrowTriesAll(|urls|, outcome, 0);
    }
  }

  /** `sendLoginNotification`. `setupFault` stands for a throw before the
      first fetch (the lookup, signing or serialising failing), which the
      outer handler turns into `false`. Writing a hook-log row is taken to
      succeed. Returns the result and the requests sent, in order. */
  method SendLoginNotification(db: Database, ctx: LoginContext, nowMs: nat, setupFault: bool,
                               outcome: nat -> FetchOutcome) returns (delivered: bool, sent: seq<HookRequest>)
    modifies db
    ensures var found := FindByNames(old(db.services), ctx.serviceName);
      found.None? || setupFault ==> !delivered && sent == [] && db.hookLogs == old(db.hookLogs)
    ensures var found := FindByNames(old(db.services), ctx.serviceName);
      found.Some? && !setupFault ==>
        var svc := found.value;
        var urls := svc.microServicesUrl;
        var n := Attempts(|urls|, outcome, 0);
        && db.hookLogs == old(db.hookLogs) + Rows(svc.id, urls, outcome, ctx, n)
        && sent == Requests(urls, Body(ctx), Token(ctx, svc.hookSecret, nowMs), Sign(Body(ctx), svc.hookSecret), n)
        && (delivered <==> n > 0 && outcome(n - 1).Resp? && outcome(n - 1).ok)
    ensures db.users == old(db.users) && db.accounts == old(db.accounts) && db.services == old(db.services)
    ensures db.userServices == old(db.userServices) && db.auditLogs == old(db.auditLogs)
  {
    var found := FindByNames(db.services, ctx.serviceName);
    if found.None? || setupFault {
      return false, [];
    }
    delivered, sent := NotifyAll(db, found.value, ctx, nowMs, outcome);
  }
}
