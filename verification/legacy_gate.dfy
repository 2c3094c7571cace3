/**
  The earlier entry point, src/index.ts: a static login page whose error
  marker is filled in, a gate that lets campus addresses through and
  otherwise wants a verifiable `token` cookie, and the same `/files/` route
  forwarding without the download counter.

  Signature checking of the token is the parameter `verifies`.
 */
module LegacyGate {
  import opened Text
  import SiteGate

  /** The placeholder of the login page where an error message goes. */
  const Marker := "<!--ERRORMSG-->"
  const BadForm := "数据格式错误"
  const TokenPrefix := "token="

  /** `loginHTML.split(MARKER).join(err)`. */
  function LoginError(page: string, err: string): string {
    Join(Split(page, Marker), err)
  }

  /** The error text takes the place of every marker of the page. */
  lemma LoginErrorFillsMarkers(page: string, err: string)
    ensures LoginError(page, err) == ReplaceAll(page, Marker, err)
    ensures !Contains(page, Marker) ==> LoginError(page, err) == page
  {
    SplitJoinIsReplaceAll(page, Marker, err);
    if !Contains(page, Marker) {
      ReplaceAllAbsent(page, Marker, err);
    }
  }

  /** What the earlier routes answer. */
  datatype Answer =
    | Pass
    | Redirect(location: string)
    | SignedIn(cookie: string)  // the token cookie, then a redirect to `/`
    | Page(html: string)

  /**
    `POST /login`: fields that are not text get the page with "数据格式错误";
    a failed campus check gets the page with the thrown message; otherwise
    the signed token is set as the `token` cookie.
   */
  function LoginSubmit(page: string, studentId: SiteGate.Field, password: SiteGate.Field,
                       check: Result<(), Thrown>, jwt: string): (a: Answer)
    ensures studentId.NotText? || password.NotText? ==> a == Page(LoginError(page, BadForm))
    ensures studentId.Text? && password.Text? && check.Failure? ==> a == Page(LoginError(page, Describe(check.error)))
    ensures a.SignedIn? <==> studentId.Text? && password.Text? && check.Success?
    ensures a.SignedIn? ==> StartsWith(a.cookie, TokenPrefix + jwt + ";")
  {
    if studentId.NotText? || password.NotText? then Page(LoginError(page, BadForm))
    else if check.Failure? then Page(LoginError(page, Describe(check.error)))
    else
      var head := TokenPrefix + jwt + ";";
      var cookie := head + " Max-Age=2592000; Secure; HttpOnly; SameSite=Strict";
      assert cookie[..|head|] == head;
      SignedIn(cookie)
  }

  // ---------------------------------------------------------------------
  // The token cookie

  /** `segments.find(v => v.startsWith(prefix))`. */
  function FindStarting(segments: seq<string>, prefix: string): (r: Option<string>)
    ensures r.None? <==> forall i :: 0 <= i < |segments| ==> !StartsWith(segments[i], prefix)
    ensures r.Some? ==> StartsWith(r.value, prefix)
    ensures r.Some? ==>
      exists i :: 0 <= i < |segments| && segments[i] == r.value && forall j :: 0 <= j < i ==> !StartsWith(segments[j], prefix)
  {
    if segments == [] then None
    else if StartsWith(segments[0], prefix) then Some(segments[0])
    else
      var r := FindStarting(segments[1..], prefix);
      if r.Some? then
        var i :| 0 <= i < |segments[1..]| && segments[1..][i] == r.value &&
          forall j :: 0 <= j < i ==> !StartsWith(segments[1..][j], prefix);
        assert segments[i + 1] == r.value;
        r
      else r
  }

  /** `TakeUntil` stops at the first `c`, past a prefix without one. */
  lemma {:induction false} TakeUntilAfter(p: string, c: char, rest: string)
    requires c !in p
    ensures TakeUntil(p + [c] + rest, c) == p
  {
    if p != [] {
      assert (p + [c] + rest)[1..] == p[1..] + [c] + rest;
      TakeUntilAfter(p[1..], c, rest);
    }
  }

  /** Splitting on a character that does not occur gives the whole text. */
  lemma {:induction false} SplitWithout(s: string, c: char)
    requires c !in s
    ensures Split(s, [c]) == [s]
    decreases |s|
  {
    if s != [] {
      assert s[0] != c;
      assert s[..1] != [c];
      assert c !in s[1..];
      SplitWithout(s[1..], c);
      assert [s[0]] + s[1..] == s;
    }
  }

  /** Splitting `p + c + rest` on `c`, with no `c` in `p`: `p` first, then the pieces of `rest`. */
  lemma SplitAfter(p: string, c: char, rest: string)
    requires c !in p
    ensures Split(p + [c] + rest, [c]) == [p] + Split(rest, [c])
  {
    var s := p + [c] + rest;
    SplitOnCharFirst(s, c);
    TakeUntilAfter(p, c, rest);
    assert s[|p| + 1..] == rest;
  }

  /** `segment.split("=")[1]` of a segment that starts with `token=`: the text up to the next `=`. */
  function CookieValue(segment: string): (v: string)
    requires StartsWith(segment, TokenPrefix)
    ensures v == TakeUntil(segment[|TokenPrefix|..], '=')
  {
    var rest := segment[|TokenPrefix|..];
    assert segment == "token" + ['='] + rest;
    SplitAfter("token", '=', rest);
    SplitOnCharFirst(rest, '=');
    Split(segment, "=")[1]
  }

  /**
    `segments.find(v => v.startsWith("token="))?.split("=")[1]`: the
    value of the first segment that begins with `token=`, if any.
   */
  function TokenIn(segments: seq<string>): (t: Option<string>)
    ensures t.None? <==> forall i :: 0 <= i < |segments| ==> !StartsWith(segments[i], TokenPrefix)
    ensures t.Some? ==>
      exists i :: 0 <= i < |segments| && StartsWith(segments[i], TokenPrefix) && t.value == CookieValue(segments[i])
        && forall j :: 0 <= j < i ==> !StartsWith(segments[j], TokenPrefix)
  {
    var found := FindStarting(segments, TokenPrefix);
    if found.None? then None
    else
      var i :| 0 <= i < |segments| && segments[i] == found.value
        && forall j :: 0 <= j < i ==> !StartsWith(segments[j], TokenPrefix);
      Some(CookieValue(found.value))
  }

  /**
    `Cookie?.split(";").find(v => v.startsWith("token="))?.split("=")[1]`:
    the value of the first `;`-segment that begins with `token=` exactly,
    with no whitespace trimmed.
   */
  function TokenFromCookie(cookie: Option<string>): (t: Option<string>)
    ensures cookie.None? ==> t.None?
  {
    if cookie.None? then None else TokenIn(Split(cookie.value, ";"))
  }

  /** A cookie header holding only the token cookie gives the token back (a JWT has no `=` or `;`). */
  lemma OnlyTokenCookie(jwt: string)
    requires '=' !in jwt && ';' !in jwt
    ensures TokenFromCookie(Some(TokenPrefix + jwt)) == Some(jwt)
  {
    var s := TokenPrefix + jwt;
    SplitWithout(s, ';');
    assert StartsWith(s, TokenPrefix);
    assert s[|TokenPrefix|..] == jwt;
    TakeUntilAll(jwt, '=');
  }

  /** `TakeUntil` of a text without `c` is the whole text. */
  lemma {:induction false} TakeUntilAll(s: string, c: char)
    requires c !in s
    ensures TakeUntil(s, c) == s
  {
    if s != [] {
      TakeUntilAll(s[1..], c);
    }
  }

  // ---------------------------------------------------------------------
  // The token cookie behind another cookie

  /**
    Browsers separate cookies by "; ". When another cookie comes first,
    the token's segment starts with a space and is not found: the gate
    sends a logged-in visitor back to the login page.
   */
  lemma TokenBehindOtherCookieMissed(other: string, jwt: string)
    requires ';' !in other && ';' !in jwt
    ensures TokenFromCookie(Some(other + "; " + (TokenPrefix + jwt))).None? || StartsWith(other, TokenPrefix)
  {
    var t := TokenPrefix + jwt;
    SplitBehindOther(other, t);
    assert !StartsWith(" " + t, TokenPrefix) by {
      assert (" " + t)[0] == ' ';
    }
  }

  /** The leading spaces of a segment dropped. */
  function TrimStart(s: string): (t: string)
    ensures |t| <= |s|
    ensures t == [] || t[0] != ' '
    ensures s == [] || s[0] != ' ' ==> t == s
  {
    if s != [] && s[0] == ' ' then TrimStart(s[1..]) else s
  }

  /** `TrimStart(s)` is what follows the run of spaces at the start of `s`. */
  lemma {:induction false} TrimStartDropsLeadingSpaces(s: string)
    ensures exists k :: 0 <= k <= |s| && TrimStart(s) == s[k..] && forall j :: 0 <= j < k ==> s[j] == ' '
  {
    if s != [] && s[0] == ' ' {
      TrimStartDropsLeadingSpaces(s[1..]);
      var k :| 0 <= k <= |s[1..]| && TrimStart(s[1..]) == s[1..][k..] && forall j :: 0 <= j < k ==> s[1..][j] == ' ';
      assert s[1..][k..] == s[k + 1..];
      assert forall j :: 0 <= j < k + 1 ==> s[j] == ' ' by {
        forall j | 0 <= j < k + 1 ensures s[j] == ' ' {
          if j > 0 {
            assert s[j] == s[1..][j - 1];
          }
        }
      }
    } else {
      assert s[0..] == s;
    }
  }

  /** The segments with their leading spaces dropped. */
  function TrimAll(segments: seq<string>): (r: seq<string>)
    ensures |r| == |segments|
    ensures forall i :: 0 <= i < |r| ==> r[i] == TrimStart(segments[i])
  {
    if segments == [] then [] else [TrimStart(segments[0])] + TrimAll(segments[1..])
  }

  /** The lookup as intended: each segment trimmed before its name is compared. */
  function TokenFromCookieTrimmed(cookie: Option<string>): (t: Option<string>)
    ensures cookie.None? ==> t.None?
  {
    if cookie.None? then None else TokenIn(TrimAll(Split(cookie.value, ";")))
  }

  /** Trimmed, the token is found behind another cookie. */
  lemma TrimmedFindsTokenBehindOther(other: string, jwt: string)
    requires ';' !in other && ';' !in jwt && '=' !in jwt
    requires !StartsWith(TrimStart(other), TokenPrefix)
    ensures TokenFromCookieTrimmed(Some(other + "; " + (TokenPrefix + jwt))) == Some(jwt)
  {
    var t := TokenPrefix + jwt;
    TokenSegmentValue(jwt);
    SplitBehindOther(other, t);
    TrimOneSpace(t);
    assert TrimAll([other, " " + t]) == [TrimStart(other), t];
    TrimmedFindsSecond(other + "; " + t, TrimStart(other), t);
  }

  /** With the trimmed segments a non-token then a token, the token's value is found. */
  lemma TrimmedFindsSecond(cookie: string, first: string, t: string)
    requires TrimAll(Split(cookie, ";")) == [first, t]
    requires !StartsWith(first, TokenPrefix) && StartsWith(t, TokenPrefix)
    ensures TokenFromCookieTrimmed(Some(cookie)) == Some(CookieValue(t))
  {
    SecondFound(first, t);
  }

  /** The value of a token segment is the token, when it holds no `=`. */
  lemma TokenSegmentValue(jwt: string)
    requires '=' !in jwt
    ensures StartsWith(TokenPrefix + jwt, TokenPrefix)
    ensures CookieValue(TokenPrefix + jwt) == jwt
    ensures (TokenPrefix + jwt) != [] && (TokenPrefix + jwt)[0] != ' '
    ensures ';' !in jwt ==> ';' !in TokenPrefix + jwt
  {
    var t := TokenPrefix + jwt;
    assert t[0] == 't';
    assert t[..|TokenPrefix|] == TokenPrefix;
    assert t[|TokenPrefix|..] == jwt;
    TakeUntilAll(jwt, '=');
  }

  /** One leading space in front of a segment that starts with a letter is dropped. */
  lemma TrimOneSpace(t: string)
    requires t != [] && t[0] != ' '
    ensures TrimStart(" " + t) == t
  {
    assert (" " + t)[1..] == t;
  }

  /** The token segment second, behind one that is not a token. */
  lemma SecondFound(first: string, t: string)
    requires !StartsWith(first, TokenPrefix)
    requires StartsWith(t, TokenPrefix)
    ensures FindStarting([first, t], TokenPrefix) == Some(t)
  {
    assert [first, t][1..] == [t];
  }

  /** The two segments of a header with one other cookie before `t`. */
  lemma SplitBehindOther(other: string, t: string)
    requires ';' !in other && ';' !in t
    ensures Split(other + "; " + t, ";") == [other, " " + t]
  {
    var rest := " " + t;
    assert other + "; " + t == other + [';'] + rest;
    assert ';' !in rest;
    SplitAfter(other, ';', rest);
    SplitWithout(rest, ';');
  }

  /** Trimming changes nothing for headers whose segments do not start with a space. */
  lemma TrimmedAgrees(cookie: string)
    requires forall i :: 0 <= i < |Split(cookie, ";")| ==> Split(cookie, ";")[i] == [] || Split(cookie, ";")[i][0] != ' '
    ensures TokenFromCookieTrimmed(Some(cookie)) == TokenFromCookie(Some(cookie))
  {
    var segs := Split(cookie, ";");
    forall i | 0 <= i < |segs| ensures TrimAll(segs)[i] == segs[i] {
      assert segs[i] == [] || segs[i][0] != ' ';
    }
    assert TrimAll(segs) == segs;
  }

  /**
    The gate: a campus address passes; otherwise a non-empty token that
    verifies is needed. The token is read as written, without trimming,
    so a token cookie that follows another cookie is missed
    (`GateMissesTokenBehindOther`).
   */
  function Gate(ip: Option<string>, cookie: Option<string>, inCampus: string -> bool, verifies: string -> bool): (a: Answer)
    ensures a == Pass <==>
      || (ip.Some? && ip.value != "" && inCampus(ip.value))
      || (var t := TokenFromCookie(cookie); t.Some? && t.value != "" && verifies(t.value))
    ensures a != Pass ==> a == Redirect("/login")
  {
    if ip.Some? && ip.value != "" && inCampus(ip.value) then Pass
    else
      var jwt := TokenFromCookie(cookie);
      if jwt.None? || jwt.value == "" then Redirect("/login")
      else if verifies(jwt.value) then Pass
      else Redirect("/login")
  }

  /**
    Off campus, a visitor whose browser sends another cookie before a
    valid token is sent to the login page all the same.
   */
  lemma GateMissesTokenBehindOther(ip: Option<string>, other: string, jwt: string,
                                   inCampus: string -> bool, verifies: string -> bool)
    requires !(ip.Some? && ip.value != "" && inCampus(ip.value))
    requires ';' !in other && ';' !in jwt && !StartsWith(other, TokenPrefix)
    ensures Gate(ip, Some(other + "; " + (TokenPrefix + jwt)), inCampus, verifies) == Redirect("/login")
  {
    TokenBehindOtherCookieMissed(other, jwt);
  }

  /** The gate as intended: the same tests, with each cookie segment trimmed before its name is compared. */
  function GateTrimmed(ip: Option<string>, cookie: Option<string>, inCampus: string -> bool, verifies: string -> bool): (a: Answer)
    ensures a == Pass <==>
      || (ip.Some? && ip.value != "" && inCampus(ip.value))
      || (var t := TokenFromCookieTrimmed(cookie); t.Some? && t.value != "" && verifies(t.value))
    ensures a != Pass ==> a == Redirect("/login")
  {
    if ip.Some? && ip.value != "" && inCampus(ip.value) then Pass
    else
      var jwt := TokenFromCookieTrimmed(cookie);
      if jwt.None? || jwt.value == "" then Redirect("/login")
      else if verifies(jwt.value) then Pass
      else Redirect("/login")
  }

  /** For headers whose segments do not start with a space, the intended gate answers as the written one. */
  lemma GateTrimmedAgrees(ip: Option<string>, cookie: string, inCampus: string -> bool, verifies: string -> bool)
    requires forall i :: 0 <= i < |Split(cookie, ";")| ==> Split(cookie, ";")[i] == [] || Split(cookie, ";")[i][0] != ' '
    ensures GateTrimmed(ip, Some(cookie), inCampus, verifies) == Gate(ip, Some(cookie), inCampus, verifies)
  {
    TrimmedAgrees(cookie);
  }

  /** With the intended gate, a visitor whose browser sends another cookie before the token gets through once the token verifies. */
  lemma SignedInBehindOtherCookiePasses(ip: Option<string>, other: string, jwt: string,
                                        inCampus: string -> bool, verifies: string -> bool)
    requires ';' !in other && ';' !in jwt && '=' !in jwt && jwt != ""
    requires !StartsWith(TrimStart(other), TokenPrefix)
    requires verifies(jwt)
    ensures GateTrimmed(ip, Some(other + "; " + (TokenPrefix + jwt)), inCampus, verifies) == Pass
  {
    TrimmedFindsTokenBehindOther(other, jwt);
  }

  /** `/files/` route: the path after `/files/`, joined to the server with one slash. */
  function FilesUrl(server: string, path: string): (url: string)
    ensures url == SiteGate.ServerBase(server) + "/" + SiteGate.FilePath(path)
  {
    SiteGate.UpstreamOneSlash(server, SiteGate.FilePath(path));
    SiteGate.UpstreamUrl(server, SiteGate.FilePath(path))
  }
}
