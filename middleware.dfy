/** The authentication middleware: which paths it runs on (the `matcher`)
    and the `authorized` callback that decides them. */
module Middleware {

  /** `publicRoutes.includes(pathname) || !!token`: only "/" is public. */
  predicate Authorized(pathname: string, hasToken: bool)
  {
    pathname in ["/"] || hasToken
  }

  /** The characters JavaScript's `.` does not match: line feed, carriage
      return, and the line and paragraph separators. */
  predicate LineTerminator(c: char)
  {
    c == '\n' || c == '\r' || c == '\U{2028}' || c == '\U{2029}'
  }

  /** One character of a regular expression: `.` stands for any character
      but a line terminator, every other character for itself. */
  predicate CharMatches(p: char, c: char)
  {
    if p == '.' then !LineTerminator(c) else p == c
  }

  /** The regular expression `pattern` (plain characters and `.`) matches a
      prefix of `s`. */
  predicate PatternPrefix(pattern: string, s: string)
  {
    |pattern| <= |s| && forall i :: 0 <= i < |pattern| ==> CharMatches(pattern[i], s[i])
  }

  /** The alternatives of the negative look-ahead. */
  const Excluded: seq<string> := ["api/auth", "api/health", "_next/static", "_next/image", "favicon.ico", "public"]

  /** `/((?!api/auth|api/health|_next/static|_next/image|favicon.ico|public).*)`:
      a path the middleware runs on starts with '/', the text after it
      starts with none of the alternatives, and the closing `.*` reaches the
      end of the path, so no line terminator follows the '/'. */
  predicate Matched(pathname: string)
  {
    |pathname| >= 1 && pathname[0] == '/'
    && (forall k :: 0 <= k < |Excluded| ==> !PatternPrefix(Excluded[k], pathname[1..]))
    && forall i :: 1 <= i < |pathname| ==> !LineTerminator(pathname[i])
  }

  /** A request goes through when the middleware does not run on its path
      or the callback authorises it. */
  predicate Admitted(pathname: string, hasToken: bool)
  {
    !Matched(pathname) || Authorized(pathname, hasToken)
  }

  /** "/" is authorised with or without a token, and any other path exactly
      when a token is present. */
  lemma AuthorizedSpec(pathname: string, hasToken: bool)
    ensures Authorized("/", hasToken)
    ensures pathname != "/" ==> (Authorized(pathname, hasToken) <==> hasToken)
  {
  }

  /** A literal alternative (one without `.`) matches exactly the paths it
      starts. */
  lemma LiteralPatternPrefix(pattern: string, s: string)
    requires forall i :: 0 <= i < |pattern| ==> pattern[i] != '.'
    ensures PatternPrefix(pattern, s) <==> pattern <= s
  {
    if PatternPrefix(pattern, s) {
      assert s[..|pattern|] == pattern;
    }
  }

  /** "/publicity" starts with "public", so the middleware skips it. */
  lemma PublicityNotMatched()
    ensures !Matched("/publicity")
  {
    assert PatternPrefix(Excluded[5], "/publicity"[1..]);
  }

  /** The `.` of `favicon.ico` is a wildcard: "/faviconXico" is skipped too. */
  lemma FaviconWildcard()
    ensures !Matched("/faviconXico")
    ensures !Matched("/favicon.ico")
  {
    assert PatternPrefix(Excluded[4], "/faviconXico"[1..]);
    assert PatternPrefix(Excluded[4], "/favicon.ico"[1..]);
  }

  /** The auth endpoints are reachable without a token. */
  lemma AuthRoutesAdmitted(rest: string)
    ensures Admitted("/api/auth" + rest, false)
  {
    var path := "/api/auth" + rest;
    assert path[1..][..8] == "api/auth";
    assert PatternPrefix(Excluded[0], path[1..]);
  }

  /** A path holding a line terminator after its '/' is not matched, since
      the closing `.*` stops there; the `.` of "favicon.ico" does not match a
      line terminator either. */
  lemma LineTerminatorNotMatched(rest: string, c: char)
    requires LineTerminator(c)
    ensures !Matched("/" + rest + [c])
    ensures !PatternPrefix(Excluded[4], "favicon" + [c] + "ico")
  {
    var p := "/" + rest + [c];
    assert p[|p| - 1] == c;
    assert !CharMatches(Excluded[4][7], ("favicon" + [c] + "ico")[7]);
  }

  /** The dashboard page and its API go through the callback, so without a
      token they are refused and with one they are admitted. */
  lemma DashboardGuarded(hasToken: bool)
    ensures Matched("/dashboard") && Matched("/api/dashboard")
    ensures Admitted("/dashboard", hasToken) <==> hasToken
    ensures Admitted("/api/dashboard", hasToken) <==> hasToken
  {
    forall k | 0 <= k < |Excluded| ensures !PatternPrefix(Excluded[k], "dashboard") {
      assert !CharMatches(Excluded[k][0], 'd');
    }
    forall k | 0 <= k < |Excluded| ensures !PatternPrefix(Excluded[k], "api/dashboard") {
      if k == 0 || k == 1 {
        assert !CharMatches(Excluded[k][4], "api/dashboard"[4]);
      } else {
        assert !CharMatches(Excluded[k][0], 'a');
      }
    }
    assert "/dashboard"[1..] == "dashboard";
    assert "/api/dashboard"[1..] == "api/dashboard";
  }

  /** The site root is always admitted. */
  lemma RootAdmitted(hasToken: bool)
    ensures Admitted("/", hasToken)
  {
  }
}
