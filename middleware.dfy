/** The front end's canonical-host middleware: every request that is not local is
    sent with a permanent redirect to `https://www.texcoco.xyz`, keeping its path
    and query, unless it already arrived there over HTTPS; and the matcher that
    keeps API routes, Next.js assets and the favicon away from it. */
module Middleware {
  import opened Wrappers
  import opened Text

  const CanonicalHost: string := "www.texcoco.xyz"
  const CanonicalOrigin: string := "https://www.texcoco.xyz"

  /** Where `new URL(input, 'https://www.texcoco.xyz')` points. An input that
      starts with two slashes (a backslash counts as a slash in an `https` URL) is
      scheme-relative: its own text names the host. Any other input is a path on
      the canonical origin, with a leading `/` when it has none. */
  datatype Target = OnCanonicalHost(path: string) | SchemeRelative(input: string)

  datatype Decision = Next | Redirect(status: nat, target: Target)

  predicate IsSlash(c: char) { c == '/' || c == '\\' }

  function Resolve(input: string): (t: Target)
    ensures t.OnCanonicalHost? <==> !(|input| >= 2 && IsSlash(input[0]) && IsSlash(input[1]))
    ensures t.OnCanonicalHost? && |input| > 0 && input[0] == '/' ==> t.path == input
    ensures t.OnCanonicalHost? ==> |t.path| > 0 && t.path[0] == '/'
  {
    if |input| >= 2 && IsSlash(input[0]) && IsSlash(input[1]) then SchemeRelative(input)
    else if |input| > 0 && IsSlash(input[0]) then OnCanonicalHost("/" + input[1..])
    else OnCanonicalHost("/" + input)
  }

  /** The text of a target on the canonical host. */
  function Href(t: Target): string
    requires t.OnCanonicalHost?
  {
    CanonicalOrigin + t.path
  }

  /** `request.headers.get('host') || ''`. */
  function HostName(host: Option<string>): string
  {
    if host.Some? && host.value != "" then host.value else ""
  }

  /** `request.headers.get('x-forwarded-proto') || 'http'`. */
  function Protocol(proto: Option<string>): string
  {
    if proto.Some? && proto.value != "" then proto.value else "http"
  }

  /** A local host is never redirected. */
  predicate IsLocal(hostname: string)
  {
    Contains(hostname, "localhost") || Contains(hostname, "127.0.0.1") || Contains(hostname, ":")
  }

  /** `middleware(request)`, from the two headers and the request URL's path and query. */
  function Decide(host: Option<string>, proto: Option<string>, pathname: string, search: string): (d: Decision)
    ensures d.Redirect? ==> d.status == 301 && d.target == Resolve(pathname + search)
    ensures d.Redirect? ==> !IsLocal(HostName(host))
    ensures d.Redirect? <==>
      !IsLocal(HostName(host)) && (HostName(host) != CanonicalHost || Protocol(proto) != "https")
  {
    var hostname := HostName(host);
    var protocol := Protocol(proto);
    if IsLocal(hostname) then Next
    else if hostname != CanonicalHost || protocol != "https" then
      Redirect(301, Resolve(pathname + search))
    else Next
  }

  /** Nothing occurs in the empty string but the empty pattern. */
  lemma NothingInEmpty(t: string)
    requires t != ""
    ensures !Contains("", t)
  {
    assert !StartsWith(""[0..], t);
  }

  /** The empty host is not local. */
  lemma NothingLocalInEmpty()
    ensures !IsLocal("")
  {
    assert !Contains("", "localhost") by { NothingInEmpty("localhost"); }
    assert !Contains("", "127.0.0.1") by { NothingInEmpty("127.0.0.1"); }
    assert !Contains("", ":") by { NothingInEmpty(":"); }
  }

  /** A request with neither header is redirected: its host is empty, which is
      neither local nor canonical. */
  lemma MissingHeadersRedirect(pathname: string, search: string)
    ensures Decide(None, None, pathname, search) == Redirect(301, Resolve(pathname + search))
  {
    NothingLocalInEmpty();
  }

  /** A host without `l`, `1` and `:` is not local. */
  lemma NotLocalWithout(hostname: string)
    requires 'l' !in hostname && '1' !in hostname && ':' !in hostname
    ensures !IsLocal(hostname)
  {
    NotContainsWithout(hostname, "localhost", 'l');
    NotContainsWithout(hostname, "127.0.0.1", '1');
    NotContainsWithout(hostname, ":", ':');
  }

  /** The canonical host is not local. */
  lemma CanonicalHostNotLocal()
    ensures !IsLocal(CanonicalHost)
  {
    NotLocalWithout(CanonicalHost);
  }

  /** The redirect target is a fixed point: a request on the canonical host over
      HTTPS is let through, whatever its path. */
  lemma CanonicalPassesThrough(pathname: string, search: string)
    ensures Decide(Some(CanonicalHost), Some("https"), pathname, search) == Next
  {
    CanonicalHostNotLocal();
  }

  /** The canonical host over any protocol but HTTPS is redirected. */
  lemma CanonicalOverHttpRedirects(proto: Option<string>, pathname: string, search: string)
    requires Protocol(proto) != "https"
    ensures Decide(Some(CanonicalHost), proto, pathname, search).Redirect?
  {
    CanonicalHostNotLocal();
  }

  /** A request for any other host that is not local, such as the bare domain, is
      redirected to the canonical origin whatever its protocol. */
  lemma ForeignHostRedirects(hostname: string, proto: Option<string>, pathname: string, search: string)
    requires !IsLocal(hostname) && hostname != CanonicalHost
    ensures Decide(Some(hostname), proto, pathname, search) == Redirect(301, Resolve(pathname + search))
  {
    if hostname == "" {
      NothingLocalInEmpty();
    }
  }

  /** The bare domain over HTTPS is redirected. */
  lemma BareDomainRedirects(pathname: string, search: string)
    ensures Decide(Some("texcoco.xyz"), Some("https"), pathname, search) == Redirect(301, Resolve(pathname + search))
  {
    NotLocalWithout("texcoco.xyz");
    ForeignHostRedirects("texcoco.xyz", Some("https"), pathname, search);
  }

  /** A request without a host header is redirected whatever its protocol. */
  lemma MissingHostRedirects(proto: Option<string>, pathname: string, search: string)
    ensures Decide(None, proto, pathname, search).Redirect?
  {
    NothingLocalInEmpty();
  }

  /** A request path (which starts with `/`) whose second character is not a
      slash, followed by a query (empty or starting with `?`), resolves to itself
      on the canonical origin. */
  lemma ResolveKeepsPathAndQuery(pathname: string, search: string)
    requires |pathname| > 0 && pathname[0] == '/' && !(|pathname| >= 2 && IsSlash(pathname[1]))
    requires search == "" || search[0] == '?'
    ensures Resolve(pathname + search) == OnCanonicalHost(pathname + search)
  {
    var input := pathname + search;
    assert input[0] == '/';
    if |input| >= 2 {
      assert input[1] == if |pathname| >= 2 then pathname[1] else search[0];
    }
  }

  /** So the redirect keeps the path and the query, and names the canonical origin. */
  lemma RedirectKeepsPathAndQuery(host: Option<string>, proto: Option<string>, pathname: string, search: string)
    requires |pathname| > 0 && pathname[0] == '/' && !(|pathname| >= 2 && IsSlash(pathname[1]))
    requires search == "" || search[0] == '?'
    requires Decide(host, proto, pathname, search).Redirect?
    ensures var t := Decide(host, proto, pathname, search).target;
      t == OnCanonicalHost(pathname + search) && Href(t) == CanonicalOrigin + pathname + search
  {
    ResolveKeepsPathAndQuery(pathname, search);
  }

  /** One redirect is enough: for a request path whose second character is not a
      slash, the redirect names the canonical origin with the same path and
      query, and the request that follows it is let through. */
  lemma OneRedirectSuffices(host: Option<string>, proto: Option<string>, pathname: string, search: string)
    requires |pathname| > 0 && pathname[0] == '/' && !(|pathname| >= 2 && IsSlash(pathname[1]))
    requires search == "" || search[0] == '?'
    requires Decide(host, proto, pathname, search).Redirect?
    ensures var t := Decide(host, proto, pathname, search).target;
      t.OnCanonicalHost? && t.path == pathname + search
      && Decide(Some(CanonicalHost), Some("https"), pathname, search) == Next
  {
    ResolveKeepsPathAndQuery(pathname, search);
    CanonicalPassesThrough(pathname, search);
  }

  /** A request path that starts with two slashes is resolved as a scheme-relative
      URL, so the redirect does not name the canonical host. */
  lemma DoubleSlashLeavesCanonicalHost(host: Option<string>, proto: Option<string>, pathname: string, search: string)
    requires |pathname| >= 2 && pathname[0] == '/' && pathname[1] == '/'
    requires Decide(host, proto, pathname, search).Redirect?
    ensures Decide(host, proto, pathname, search).target == SchemeRelative(pathname + search)
  {
  }

  // ---------------------------------------------------------------------------
  // The matcher

  /** The characters JavaScript's `.` does not match. */
  predicate IsLineTerminator(c: char)
  {
    c == '\n' || c == '\r' || c == '\U{2028}' || c == '\U{2029}'
  }

  /** The lookahead's `favicon.ico`, whose `.` matches any one character but a line terminator. */
  predicate FaviconAhead(rest: string)
  {
    |rest| >= 11 && rest[..7] == "favicon" && !IsLineTerminator(rest[7]) && rest[8..11] == "ico"
  }

  predicate ExcludedAhead(rest: string)
  {
    StartsWith(rest, "api") || StartsWith(rest, "_next/static") || StartsWith(rest, "_next/image")
    || FaviconAhead(rest)
  }

  /** The pattern `/((?!api|_next/static|_next/image|favicon.ico).*)` against a
      whole path: a `/`, then text that does not begin with an excluded name and
      that `.*` covers entirely. */
  predicate MatcherSelects(path: string)
  {
    |path| > 0 && path[0] == '/' && !ExcludedAhead(path[1..])
    && forall k :: 1 <= k < |path| ==> !IsLineTerminator(path[k])
  }

  /** Paths starting with an excluded name never reach the middleware: a path
      whose text after the slash starts with `api`, `_next/static` or
      `_next/image` is skipped. The test is on the text only, so `/apis` is
      skipped as well. */
  lemma PrefixSkipped(name: string, tail: string)
    requires name == "api" || name == "_next/static" || name == "_next/image"
    ensures !MatcherSelects("/" + name + tail)
  {
    var rest := ("/" + name + tail)[1..];
    assert rest == name + tail;
    assert rest[..|name|] == name;
  }

  /** The favicon is skipped, and so is every path that starts with `/favicon`,
      any one character but a line terminator, then `ico` (`/favicon-ico`). */
  lemma FaviconSkipped(c: char, tail: string)
    requires !IsLineTerminator(c)
    ensures !MatcherSelects("/favicon" + [c] + "ico" + tail)
  {
    var rest := ("/favicon" + [c] + "ico" + tail)[1..];
    assert rest == "favicon" + [c] + "ico" + tail;
    assert rest[..7] == "favicon";
    assert rest[7] == c;
    assert rest[8..11] == "ico";
    assert FaviconAhead(rest);
  }

  /** The names the lookahead excludes, besides the favicon. */
  const ExcludedNames: seq<string> := ["api", "_next/static", "_next/image"]

  /** The favicon pattern, spelled out: `favicon`, one character that is not a
      line terminator, `ico`. */
  lemma FaviconAheadIff(rest: string)
    ensures FaviconAhead(rest) <==>
      exists c :: !IsLineTerminator(c) && StartsWith(rest, "favicon" + [c] + "ico")
  {
    if FaviconAhead(rest) {
      var c := rest[7];
      assert rest[..11] == "favicon" + [c] + "ico";
    }
    if exists c :: !IsLineTerminator(c) && StartsWith(rest, "favicon" + [c] + "ico") {
      var c :| !IsLineTerminator(c) && StartsWith(rest, "favicon" + [c] + "ico");
      var w := "favicon" + [c] + "ico";
      assert rest[..11] == w;
      assert rest[..7] == w[..7];
      assert rest[8..11] == w[8..11];
    }
  }

  /** The matcher selects exactly the paths that start with `/`, hold no line
      terminator after it, and whose text after the slash starts with none of
      the excluded names and not with the favicon pattern. */
  lemma MatcherIff(path: string)
    ensures MatcherSelects(path) <==>
      |path| > 0 && path[0] == '/'
      && (forall k :: 1 <= k < |path| ==> !IsLineTerminator(path[k]))
      && (forall i :: 0 <= i < |ExcludedNames| ==> !StartsWith(path[1..], ExcludedNames[i]))
      && !(exists c :: !IsLineTerminator(c) && StartsWith(path[1..], "favicon" + [c] + "ico"))
  {
    if |path| > 0 {
      FaviconAheadIff(path[1..]);
      assert ExcludedNames[0] == "api" && ExcludedNames[1] == "_next/static" && ExcludedNames[2] == "_next/image";
    }
  }

  /** Every single-line path whose text after the slash is empty or starts with
      a character no excluded name starts with (`a`, `_`, `f`) is selected; the
      application's pages `/`, `/workbench` and `/settings` are such paths. */
  lemma PathsSelectedByFirstChar(path: string)
    requires |path| > 0 && path[0] == '/'
    requires forall k :: 1 <= k < |path| ==> !IsLineTerminator(path[k])
    requires |path| == 1 || (path[1] != 'a' && path[1] != '_' && path[1] != 'f')
    ensures MatcherSelects(path)
  {
    var rest := path[1..];
    if |rest| > 0 {
      assert rest[0] == path[1];
      assert !StartsWith(rest, "api") && !StartsWith(rest, "_next/static") && !StartsWith(rest, "_next/image");
      assert !FaviconAhead(rest);
    }
  }

  /** The application's own pages are selected. */
  lemma PagesSelected()
    ensures MatcherSelects("/") && MatcherSelects("/workbench") && MatcherSelects("/settings")
  {
    PathsSelectedByFirstChar("/");
    PathsSelectedByFirstChar("/workbench");
    PathsSelectedByFirstChar("/settings");
  }
}
