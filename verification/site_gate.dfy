/**
  The entry point of the site, src/index.tsx: the campus login page, the
  gate every other request passes (a campus address or the signed login
  cookie), and the `/files/` route that counts a download and forwards
  it to the file server.

  Whether an address lies in the campus subnets is the parameter
  `inCampus`; the serialisation of a query string is the parameter
  `encode`; the campus password check is an outcome.
 */
module SiteGate {
  import opened Text
  import VisitCounter

  const UnknownIp := "未知"
  const InvalidInput := "输入不合法"
  const WrongPassword := "可能是用户名或密码错误"
  const FilesPrefix := "/files/"
  const CoversPrefix := "covers/"

  /** What a route answers. */
  datatype Answer =
    | Pass                                      // `await next()`
    | Redirect(location: string, signIn: bool)  // `c.redirect(location)`, with the login cookie when `signIn`
    | RedirectLogin(to: string)                 // `c.redirect("/login?" + new URLSearchParams({ to }))`
    | LoginPage(ip: string, error: Option<string>)

  /** A form field as `parseBody` returns it: text, or something else (a file). */
  datatype Field = Text(value: string) | NotText

  /** How the campus password check ends. */
  datatype CampusLogin = Accepted | Refused | Failed(thrown: Thrown)

  /** `CF-Connecting-IP || "未知"`. */
  function ClientIp(header: Option<string>): (ip: string)
    ensures ip != ""
    ensures header.Some? && header.value != "" ==> ip == header.value
    ensures header.None? || header.value == "" ==> ip == UnknownIp
  {
    if header.Some? && header.value != "" then header.value else UnknownIp
  }

  /** A known address in the campus subnets: no login needed. */
  predicate OnCampus(header: Option<string>, inCampus: string -> bool) {
    ClientIp(header) != UnknownIp && inCampus(ClientIp(header))
  }

  /** `GET /login`: campus visitors go home, others see the form. */
  function LoginForm(header: Option<string>, inCampus: string -> bool): (a: Answer)
    ensures a == Redirect("/", false) <==> OnCampus(header, inCampus)
    ensures !OnCampus(header, inCampus) ==> a == LoginPage(ClientIp(header), None)
  {
    if OnCampus(header, inCampus) then Redirect("/", false) else LoginPage(ClientIp(header), None)
  }

  /**
    `POST /login`: campus visitors go home; fields that are not text are
    refused before the password check; an accepted login sets the cookie
    and goes to `to`, or `/` when it is absent or empty.
   */
  function LoginSubmit(header: Option<string>, inCampus: string -> bool, studentId: Field, password: Field,
                       to: Option<string>, check: CampusLogin): (a: Answer)
    ensures OnCampus(header, inCampus) ==> a == Redirect("/", false)
    ensures !OnCampus(header, inCampus) && (studentId.NotText? || password.NotText?) ==>
      a == LoginPage(ClientIp(header), Some(InvalidInput))
    ensures a.Redirect? && a.signIn <==>
      !OnCampus(header, inCampus) && studentId.Text? && password.Text? && check.Accepted?
    ensures a.Redirect? && a.signIn ==> a.location == (if to.Some? && to.value != "" then to.value else "/")
    ensures !OnCampus(header, inCampus) && studentId.Text? && password.Text? && check.Refused? ==>
      a == LoginPage(ClientIp(header), Some(WrongPassword))
    ensures !OnCampus(header, inCampus) && studentId.Text? && password.Text? && check.Failed? ==>
      a == LoginPage(ClientIp(header), Some(Describe(check.thrown)))
  {
    var ip := ClientIp(header);
    if OnCampus(header, inCampus) then Redirect("/", false)
    else if studentId.NotText? || password.NotText? then LoginPage(ip, Some(InvalidInput))
    else match check
      case Accepted => Redirect(if to.Some? && to.value != "" then to.value else "/", true)
      case Refused => LoginPage(ip, Some(WrongPassword))
      case Failed(thrown) => LoginPage(ip, Some(Describe(thrown)))
  }

  /** A request as the gate sees it. */
  datatype Request = Request(ip: Option<string>, loginCookie: Option<string>, path: string, query: Query)

  /** The page to come back to: the path, with its query when there is one. */
  function ReturnTarget(path: string, query: Query, encode: Query -> string): string {
    path + (if |query| > 0 then "?" + encode(query) else "")
  }

  /**
    The gate: a campus address or the signed cookie `login=1` passes;
    anyone else goes to the login page, carrying the page they asked for
    in `to` unless that is the bare root.
   */
  function Gate(req: Request, inCampus: string -> bool, encode: Query -> string): (a: Answer)
    ensures a == Pass <==>
      (req.ip.Some? && req.ip.value != "" && inCampus(req.ip.value)) || req.loginCookie == Some("1")
    ensures a != Pass && (req.path == "" || req.path == "/") && |req.query| == 0 ==> a == Redirect("/login", false)
    ensures a != Pass && !((req.path == "" || req.path == "/") && |req.query| == 0) ==>
      a == RedirectLogin(ReturnTarget(req.path, req.query, encode))
  {
    if req.ip.Some? && req.ip.value != "" && inCampus(req.ip.value) then Pass
    else if req.loginCookie == Some("1") then Pass
    else if (req.path == "" || req.path == "/") && |req.query| == 0 then Redirect("/login", false)
    else RedirectLogin(ReturnTarget(req.path, req.query, encode))
  }

  /** The query of the login page the gate sends to. */
  function LoginQuery(a: Answer): (q: Query)
    requires a.Redirect? || a.RedirectLogin?
  {
    if a.RedirectLogin? then [("to", a.to)] else []
  }

  /**
    Turned away by the gate, a visitor who then logs in is sent back to
    the page they asked for (the root for a bare `/` or empty path). The
    login POST carries the gate's `to` only because a script of the login
    page (src/pages/login.tsx:51-55) copies it into the form's action;
    the form of src/loginPage.tsx posts to a bare `/login`, without it.
   */
  lemma GateThenLoginReturns(req: Request, inCampus: string -> bool, encode: Query -> string,
                             header: Option<string>, studentId: string, password: string)
    requires Gate(req, inCampus, encode) != Pass
    requires !OnCampus(header, inCampus)
    ensures var to := Get(LoginQuery(Gate(req, inCampus, encode)), "to");
      var back := LoginSubmit(header, inCampus, Text(studentId), Text(password), to, Accepted);
      back == Redirect(if req.path == "" && |req.query| == 0 then "/" else ReturnTarget(req.path, req.query, encode), true)
  {
    var a := Gate(req, inCampus, encode);
    if a.RedirectLogin? {
      var target := ReturnTarget(req.path, req.query, encode);
      assert LoginQuery(a) == [("to", target)];
      if req.path == "" {
        assert |req.query| > 0;
        assert target != "";
      } else {
        assert target[..|req.path|] == req.path;
      }
    }
  }

  // ---------------------------------------------------------------------
  // GET /files/ and below

  /** `c.req.path.slice(7)`: the path after `/files/`. */
  function FilePath(path: string): (p: string)
    ensures StartsWith(path, FilesPrefix) ==> path == FilesPrefix + p
  {
    Drop(path, |FilesPrefix|)
  }

  /** Downloads are counted, covers are not. */
  predicate CountsDownload(p: string) {
    !StartsWith(p, CoversPrefix)
  }

  /** `FILE_SERVER + (FILE_SERVER.endsWith("/") ? "" : "/") + path`. */
  function UpstreamUrl(server: string, p: string): (url: string)
    ensures EndsWith(server, "/") ==> url == server + p
    ensures !EndsWith(server, "/") ==> url == server + "/" + p
  {
    server + (if EndsWith(server, "/") then "" else "/") + p
  }

  /** The server address up to its trailing slash, if any. */
  function ServerBase(server: string): (base: string)
    ensures EndsWith(server, "/") ==> server == base + "/"
    ensures !EndsWith(server, "/") ==> base == server
  {
    if EndsWith(server, "/") then server[..|server| - 1] else server
  }

  /**
    The upstream URL is the server, one `/` of its own or the route's,
    then the file path: whether the server is configured with or without
    the slash gives the same URL.
   */
  lemma UpstreamOneSlash(server: string, p: string)
    ensures UpstreamUrl(server, p) == ServerBase(server) + "/" + p
    ensures UpstreamUrl(ServerBase(server) + "/", p) == UpstreamUrl(server, p)
  {
    if EndsWith(server, "/") {
      assert server == server[..|server| - 1] + "/";
    }
    var with := ServerBase(server) + "/";
    assert EndsWith(with, "/");
  }

  /** A download through `/files/` reaches the server at the path after the prefix. */
  lemma FilesRoundTrip(server: string, p: string)
    ensures FilePath(FilesPrefix + p) == p
    ensures UpstreamUrl(server, FilePath(FilesPrefix + p)) == ServerBase(server) + "/" + p
  {
    assert (FilesPrefix + p)[|FilesPrefix|..] == p;
    UpstreamOneSlash(server, p);
  }

  /**
    `GET /files/...`: counts one download of the file path unless it is a
    cover, and answers with the URL fetched upstream.
   */
  method FilesRoute(counter: VisitCounter.Counter, server: string, path: string) returns (url: string)
    requires counter.Valid()
    modifies counter
    ensures counter.Valid()
    ensures url == UpstreamUrl(server, FilePath(path))
    ensures !CountsDownload(FilePath(path)) ==> counter.storage == old(counter.storage)
    ensures CountsDownload(FilePath(path)) ==>
      var p := FilePath(path);
      counter.storage == old(counter.storage)[p := if p in old(counter.storage) then old(counter.storage)[p] + 1 else 1]
  {
    var p := FilePath(path);
    if CountsDownload(p) {
      counter.Add(p);
    }
    url := UpstreamUrl(server, p);
  }
}
