/**
  The login routes of src/api/auth.ts around the session broker: which
  third-party services may log in, the URLs the routes hand out, the
  answer of the long-poll route and `afterLogin`, which turns a resolved
  session into the JSON reply or the redirect back to the service.

  A URL with a query string is kept as its base and the name/value pairs
  `URLSearchParams` is built from; the percent-encoding itself is not
  modelled, so a service reads a parameter back with `Get`.
 */
module AuthRoutes {
  import opened Text
  import SessionBroker
  import Waiters

  /** `base + "?" + new URLSearchParams(query)`. */
  datatype Link = Link(base: string, query: Query)

  /** `OAUTH_SERVICES`: the one third-party service and the page it is sent back to. */
  const OAuthServices: map<string, string> := map["byrdocs-publish" := "https://publish.byrdocs.org/callback"]

  /**
    The names every plain object literal inherits from `Object.prototype`.
    `OAUTH_SERVICES[name]` finds each of them (a function, or for
    `__proto__` the prototype itself), all truthy and without a
    `redirect_uri`.
   */
  const InheritedNames: set<string> := {
    "constructor", "hasOwnProperty", "isPrototypeOf", "propertyIsEnumerable",
    "toLocaleString", "toString", "valueOf", "__proto__",
    "__defineGetter__", "__defineSetter__", "__lookupGetter__", "__lookupSetter__"}

  /** What `OAUTH_SERVICES[name]` finds: a registered entry, or an inherited member. */
  datatype ServiceInfo = Registered(redirectUri: string) | Inherited

  /** `String(info.redirect_uri)`: an inherited member has none, which prints as `undefined`. */
  const Undefined := "undefined"

  const ServiceNotFound := "service not found"
  /** The long-poll route's own wording, shorter than the broker's. */
  const TokenExpired := "会话过期，请重新登录"
  const GitHubAuthorize := "https://github.com/login/oauth/authorize"

  /** The answers of the routes. */
  datatype Reply =
    | Signed(token: string, data: Option<string>, setCookie: bool)  // `{ token, data, success: true }`
    | Forward(redirect: Link)                                       // `{ redirect, success: true }`
    | CliUrls(tokenUrl: string, loginUrl: string)                   // `{ tokenURL, loginURL, success: true }`
    | TokenIssued(token: string)                                    // `{ token, success: true }`
    | Redirect(location: string)                                    // `c.redirect(location)`
    | RedirectTo(link: Link)                                        // `c.redirect(base + "?" + query)`
    | Error(error: string)                                          // `{ error, success: false }`

  // ---------------------------------------------------------------------
  // afterLogin

  /** The services whose login answers with the token itself instead of a redirect. */
  predicate IsOwnService(service: string) {
    service == "byrdocs" || service == "byrdocs-cli"
  }

  /** The payload handed to a third-party service: the token, then `data` when it is a non-empty string. */
  function Payload(token: string, data: Option<string>): (q: Query)
    ensures Get(q, "token") == Some(token)
    ensures data.Some? && data.value != "" ==> Get(q, "data") == Some(data.value)
    ensures data.None? || data.value == "" ==> Get(q, "data") == None
  {
    [("token", token)] + (if data.Some? && data.value != "" then [("data", data.value)] else [])
  }

  /**
    `OAUTH_SERVICES[name]`: the own entry of a registered service, else an
    inherited member of the object literal, else nothing.
   */
  function Service(name: string): (info: Option<ServiceInfo>)
    ensures info.Some? <==> name in OAuthServices || name in InheritedNames
    ensures info.Some? && info.value.Registered? <==> name in OAuthServices
    ensures name in OAuthServices ==> info.value.redirectUri == OAuthServices[name]
  {
    if name in OAuthServices then Some(Registered(OAuthServices[name]))
    else if name in InheritedNames then Some(Inherited)
    else None
  }

  /** The page a service is sent back to: its `redirect_uri`, or `undefined` for an inherited member. */
  function CallbackPage(info: ServiceInfo): (page: string)
    ensures info.Registered? ==> page == info.redirectUri
    ensures info.Inherited? ==> page == Undefined
  {
    match info
    case Registered(uri) => uri
    case Inherited => Undefined
  }

  /**
    `afterLogin`: the site and the command-line client get the token and
    data back (only the site also gets the login cookie); any other
    service that `OAUTH_SERVICES[service]` finds is sent back to its
    callback page with the token (and data) in the query, which for an
    inherited member of the object is `undefined`; anything else is
    "service not found".
   */
  function AfterLogin(res: SessionBroker.Resolution): (r: Reply)
    ensures r.Signed? <==> IsOwnService(res.service)
    ensures r.Signed? ==> r == Signed(res.token, res.data, res.service == "byrdocs")
    ensures r.Forward? <==>
      !IsOwnService(res.service) && (res.service in OAuthServices || res.service in InheritedNames)
    ensures r.Forward? && res.service in OAuthServices ==>
      r.redirect == Link(OAuthServices[res.service], Payload(res.token, res.data))
    ensures r.Forward? && res.service !in OAuthServices ==>
      r.redirect == Link(Undefined, Payload(res.token, res.data))
    ensures !r.Signed? && !r.Forward? ==> r == Error(ServiceNotFound)
  {
    if IsOwnService(res.service) then
      Signed(res.token, res.data, res.service == "byrdocs")
    else
      var info := Service(res.service);
      if info.None? then Error(ServiceNotFound)
      else Forward(Link(CallbackPage(info.value), Payload(res.token, res.data)))
  }

  /** A third-party service reads the token, and the data it passed in, back out of its redirect. */
  lemma ForwardRoundTrip(res: SessionBroker.Resolution)
    requires AfterLogin(res).Forward?
    ensures AfterLogin(res).redirect.base == CallbackPage(Service(res.service).value)
    ensures Get(AfterLogin(res).redirect.query, "token") == Some(res.token)
    ensures res.data.Some? && res.data.value != "" ==>
      Get(AfterLogin(res).redirect.query, "data") == res.data
  {
  }

  /** Only `byrdocs` sets the site cookie; the command-line client gets none. */
  lemma CookieOnlyForSite(res: SessionBroker.Resolution)
    ensures AfterLogin(res).Signed? && AfterLogin(res).setCookie <==> res.service == "byrdocs"
  {
  }

  // ---------------------------------------------------------------------
  // The routes that begin a session

  /**
    `GET /oauth`: a missing or empty service, or one that
    `OAUTH_SERVICES[service]` does not find, is refused. The inherited
    members of the object are found, so they pass.
   */
  function OAuthGuard(service: Option<string>): (r: Result<string, string>)
    ensures r.Success? <==>
      service.Some? && (service.value in OAuthServices || service.value in InheritedNames)
    ensures r.Success? ==> r.value == service.value
    ensures r.Failure? ==> r.error == ServiceNotFound
  {
    if service.None? || service.value == "" || Service(service.value).None? then Failure(ServiceNotFound)
    else Success(service.value)
  }

  /**
    An inherited member passes the guard, and after its login the token
    is sent to `undefined` instead of a service's callback page.
   */
  lemma InheritedServiceForwardedToUndefined(token: string, data: Option<string>)
    ensures OAuthGuard(Some("toString")) == Success("toString")
    ensures AfterLogin(SessionBroker.Resolution(token, "toString", data)) ==
      Forward(Link(Undefined, Payload(token, data)))
  {
    assert "toString" in InheritedNames;
    assert "toString" !in OAuthServices;
  }

  /** The guard as intended: only a service registered in `OAUTH_SERVICES` itself passes. */
  function OwnServiceGuard(service: Option<string>): (r: Result<string, string>)
    ensures r.Success? <==> service.Some? && service.value in OAuthServices
    ensures r.Success? ==> r.value == service.value
    ensures r.Failure? ==> r.error == ServiceNotFound
  {
    if service.None? || service.value !in OAuthServices then Failure(ServiceNotFound)
    else Success(service.value)
  }

  /**
    Behind the intended guard, every third-party service that begins a
    session is sent back to its own registered callback page, never to
    `undefined`.
   */
  lemma OwnGuardForwardsToCallback(service: string, token: string, data: Option<string>)
    requires OwnServiceGuard(Some(service)).Success?
    ensures AfterLogin(SessionBroker.Resolution(token, service, data)) ==
      Forward(Link(OAuthServices[service], Payload(token, data)))
    ensures OAuthServices[service] != Undefined
  {
    assert service == "byrdocs-publish";
  }

  /** The login page of a session, `origin + "/auth/" + uuid + "/" + service`. */
  function AuthPage(origin: string, uuid: string, service: string): string {
    origin + "/auth/" + uuid + "/" + service
  }

  /** The long-poll URL the command-line client is given. */
  function TokenUrl(origin: string, uuid: string): string {
    origin + "/api/auth/token/" + uuid
  }

  /**
    Every service a route begins a session for gets an answer from
    `afterLogin` and no "service not found": the site and the
    command-line client get the token, whatever passes the `/oauth` guard
    is forwarded, to its registered page or, for an inherited member of
    the object, to `undefined`.
   */
  lemma BegunServicesAreRouted(service: string, token: string, data: Option<string>)
    requires IsOwnService(service) || OAuthGuard(Some(service)).Success?
    ensures !AfterLogin(SessionBroker.Resolution(token, service, data)).Error?
    ensures !IsOwnService(service) ==>
      AfterLogin(SessionBroker.Resolution(token, service, data)) ==
        Forward(Link(if service in OAuthServices then OAuthServices[service] else Undefined, Payload(token, data)))
  {
  }

  /** The long-poll URL names the session: different handles give different URLs. */
  lemma TokenUrlNamesSession(origin: string, uuid1: string, uuid2: string)
    requires TokenUrl(origin, uuid1) == TokenUrl(origin, uuid2)
    ensures uuid1 == uuid2
  {
    var p := origin + "/api/auth/token/";
    assert uuid1 == TokenUrl(origin, uuid1)[|p|..];
    assert uuid2 == TokenUrl(origin, uuid2)[|p|..];
  }

  /** So does the command-line login page. */
  lemma CliPageNamesSession(origin: string, uuid1: string, uuid2: string)
    requires AuthPage(origin, uuid1, "byrdocs-cli") == AuthPage(origin, uuid2, "byrdocs-cli")
    ensures uuid1 == uuid2
  {
    var a := AuthPage(origin, uuid1, "byrdocs-cli");
    var q := origin + "/auth/";
    var n := |"/byrdocs-cli"|;
    assert uuid1 == a[|q|..|a| - n];
    assert uuid2 == AuthPage(origin, uuid2, "byrdocs-cli")[|q|..|a| - n];
  }

  /**
    `GET /oauth`: the guard runs first, so a refused service begins no
    session; otherwise a session for the service is begun and the browser
    is sent to its login page.
   */
  method OAuthRoute(b: SessionBroker.OAuth, service: Option<string>, origin: string, uuid: string, now: int)
    returns (r: Reply)
    requires b.Valid() && uuid !in b.minted
    modifies b
    ensures b.Valid()
    ensures OAuthGuard(service).Failure? ==> r == Error(ServiceNotFound) && unchanged(b)
    ensures OAuthGuard(service).Success? ==>
      && r == Redirect(AuthPage(origin, uuid, service.value))
      && b.storage == old(b.storage)[uuid := SessionBroker.State(service.value, false, None, now, None)]
      && b.listeners == old(b.listeners)
      && b.minted == old(b.minted) + {uuid} && b.delivered == old(b.delivered)
      && b.nextWaiter == old(b.nextWaiter) && b.alarmAt == old(b.alarmAt)
  {
    var allowed := OAuthGuard(service);
    if allowed.Failure? {
      return Error(allowed.error);
    }
    var handle := b.Begin(allowed.value, None, uuid, now);
    r := Redirect(AuthPage(origin, handle, allowed.value));
  }

  /** `POST /login`: a command-line session, answered with its long-poll and login URLs. */
  method CliLoginRoute(b: SessionBroker.OAuth, origin: string, uuid: string, now: int)
    returns (r: Reply)
    requires b.Valid() && uuid !in b.minted
    modifies b
    ensures b.Valid()
    ensures r == CliUrls(TokenUrl(origin, uuid), AuthPage(origin, uuid, "byrdocs-cli"))
    ensures b.storage == old(b.storage)[uuid := SessionBroker.State("byrdocs-cli", false, None, now, None)]
    ensures b.listeners == old(b.listeners)
    ensures b.minted == old(b.minted) + {uuid} && b.delivered == old(b.delivered)
    ensures b.nextWaiter == old(b.nextWaiter) && b.alarmAt == old(b.alarmAt)
  {
    var handle := b.Begin("byrdocs-cli", None, uuid, now);
    r := CliUrls(TokenUrl(origin, handle), AuthPage(origin, handle, "byrdocs-cli"));
  }

  /** `GET /login`: a site session carrying the `to` query as its data. */
  method SiteLoginRoute(b: SessionBroker.OAuth, to: Option<string>, origin: string, uuid: string, now: int)
    returns (r: Reply)
    requires b.Valid() && uuid !in b.minted
    modifies b
    ensures b.Valid()
    ensures r == Redirect(AuthPage(origin, uuid, "byrdocs"))
    ensures b.storage == old(b.storage)[uuid := SessionBroker.State("byrdocs", false, to, now, None)]
    ensures b.listeners == old(b.listeners)
    ensures b.minted == old(b.minted) + {uuid} && b.delivered == old(b.delivered)
    ensures b.nextWaiter == old(b.nextWaiter) && b.alarmAt == old(b.alarmAt)
  {
    var handle := b.Begin("byrdocs", to, uuid, now);
    r := Redirect(AuthPage(origin, handle, "byrdocs"));
  }

  // ---------------------------------------------------------------------
  // GET /github/:uuid

  /** The service named in the callback path: the session's, or `byrdocs` when it has none. */
  function CallbackService(service: string): (s: string)
    ensures s != ""
    ensures service != "" ==> s == service
    ensures service == "" ==> s == "byrdocs"
  {
    if service == "" then "byrdocs" else service
  }

  /** GitHub's authorize URL for session `uuid` of `service`. */
  function AuthorizeLink(clientId: string, origin: string, uuid: string, service: string): (l: Link)
    ensures l.base == GitHubAuthorize
    ensures Get(l.query, "client_id") == Some(clientId)
    ensures Get(l.query, "redirect_uri") == Some(origin + "/callback/" + CallbackService(service))
    ensures Get(l.query, "state") == Some(uuid)
  {
    var q := [
      ("client_id", clientId),
      ("redirect_uri", origin + "/callback/" + CallbackService(service)),
      ("state", uuid)];
    assert q[1..][1..] == [("state", uuid)];
    assert Get(q[1..][1..], "state") == Some(uuid);
    assert Get(q[1..], "state") == Some(uuid);
    Link(GitHubAuthorize, q)
  }

  /**
    `GET /github/:uuid`: reads the session and sends the browser to
    GitHub, the session handle travelling as `state`. A missing session
    makes `get` throw, which this route does not catch.
   */
  method GitHubRoute(b: SessionBroker.OAuth, clientId: string, origin: string, uuid: string)
    returns (r: Result<Reply, string>)
    ensures uuid !in b.storage ==> r == Failure(SessionBroker.SessionExpired)
    ensures uuid in b.storage ==>
      r == Success(RedirectTo(AuthorizeLink(clientId, origin, uuid, b.storage[uuid].service)))
  {
    var state := b.Get(uuid);
    if state.Failure? {
      return Failure(state.error);
    }
    r := Success(RedirectTo(AuthorizeLink(clientId, origin, uuid, state.value.service)));
  }

  // ---------------------------------------------------------------------
  // GET /token/:uuid

  /** How the `listen` call of the long-poll route ends. */
  datatype ListenEnd =
    | Answered(token: string)  // a stored token, or the one a later login delivered
    | TimedOut                 // the ten-minute timer won the race: `undefined`
    | Threw(thrown: Thrown)    // `listen` threw

  /** `GET /token/:uuid`: a non-empty token is success; no token is the expired error; a throw is its text. */
  function TokenReply(e: ListenEnd): (r: Reply)
    ensures r.TokenIssued? <==> e.Answered? && e.token != ""
    ensures r.TokenIssued? ==> r.token == e.token
    ensures e.TimedOut? || (e.Answered? && e.token == "") ==> r == Error(TokenExpired)
    ensures e.Threw? ==> r == Error(Describe(e.thrown))
  {
    match e
    case Answered(token) => if token != "" then TokenIssued(token) else Error(TokenExpired)
    case TimedOut => Error(TokenExpired)
    case Threw(thrown) => Error(Describe(thrown))
  }

  /**
    The long-poll route over the broker: a missing session answers with
    the broker's error text, a resolved one with its token; an unresolved
    one parks (`None`) until a login or the timer ends the wait.
   */
  method TokenRoute(b: SessionBroker.OAuth, uuid: string) returns (r: Option<Reply>)
    requires b.Valid()
    modifies b
    ensures b.Valid()
    ensures uuid !in old(b.storage) ==> r == Some(Error(SessionBroker.SessionExpired)) && unchanged(b)
    ensures uuid in old(b.storage) && old(b.storage)[uuid].login ==>
      && old(b.storage)[uuid].token.Some?
      && r == Some(TokenReply(Answered(old(b.storage)[uuid].token.value)))
      && unchanged(b)
    ensures uuid in old(b.storage) && !old(b.storage)[uuid].login ==>
      && r == None
      && b.listeners == Waiters.Register(old(b.listeners), uuid, old(b.nextWaiter))
      && b.nextWaiter == old(b.nextWaiter) + 1
      && b.storage == old(b.storage) && b.delivered == old(b.delivered)
      && b.minted == old(b.minted) && b.alarmAt == old(b.alarmAt)
  {
    var l := b.Listen(uuid);
    match l
    case Expired(message) =>
      r := Some(TokenReply(Threw(Thrown(message, "Error: " + message))));
    case Ready(token) =>
      r := Some(TokenReply(Answered(token)));
    case Parked(_) =>
      r := None;
  }
}
