/** The cookie store: a jar persisted in the Netscape/Mozilla `cookies.txt` format, the
    expiry normalisation applied after loading, and the lookup of the Shibboleth session
    cookie for a Service Provider URL (ciecplib/cookies.py). */
module Cookies {
  import opened Wrappers
  import opened Text
  import Urls

  /** One stored cookie. `expires` is a Unix time in whole seconds, `None` for a cookie
      without an expiry (a session cookie); `value` is `None` for a cookie set with no value. */
  datatype Cookie = Cookie(
    domain: string,
    path: string,
    secure: bool,
    expires: Option<int>,
    name: string,
    value: Option<string>,
    discard: bool)

  /** What makes loading fail: the file is not a cookie file or has a line that is not a
      cookie (both `LoadError`), or it cannot be read (`OSError`). */
  datatype LoadFailure = NotCookieFile | MalformedLine(lineNumber: nat) | Unreadable

  /** The first line of every cookie file, written by `save` and checked by `load`. */
  const Header: string := "# Netscape HTTP Cookie File"

  // ---- save ----

  /** Python's `str(b).upper()` for a bool. */
  function BoolFlag(b: bool): string {
    if b then "TRUE" else "FALSE"
  }

  /** The domain-wildcard column: whether the domain starts with a dot. */
  function WildcardFlag(domain: string): string {
    BoolFlag(StartsWith(domain, "."))
  }

  /** The expires column: the decimal expiry, or `0` for a cookie without one. */
  function ExpiresColumn(expires: Option<int>): string {
    if expires.Some? then IntToString(expires.value) else "0"
  }

  /** The name column: empty for a valueless cookie, whose name goes in the value column. */
  function NameColumn(c: Cookie): string {
    if c.value.None? then "" else c.name
  }

  function ValueColumn(c: Cookie): string {
    if c.value.None? then c.name else c.value.value
  }

  /** The seven columns of a saved cookie, in file order. */
  function Columns(c: Cookie): seq<string> {
    [c.domain, WildcardFlag(c.domain), c.path, BoolFlag(c.secure),
     ExpiresColumn(c.expires), NameColumn(c), ValueColumn(c)]
  }

  function FormatLine(c: Cookie): string {
    Join(Columns(c), '\t')
  }

  function FormatLines(cs: seq<Cookie>): (lines: seq<string>)
    ensures |lines| == |cs|
  {
    seq(|cs|, i requires 0 <= i < |cs| => FormatLine(cs[i]))
  }

  /** `Cookie.is_expired(now)`: the cookie has an expiry and it is not after `now`. */
  predicate IsExpired(c: Cookie, now: int) {
    c.expires.Some? && c.expires.value <= now
  }

  /** Whether a cookie passes the discard and expiry filters of `save` (and `load`). */
  predicate Survives(c: Cookie, ignoreDiscard: bool, ignoreExpires: bool, now: int) {
    (ignoreDiscard || !c.discard) && (ignoreExpires || !IsExpired(c, now))
  }

  /** The cookies of `jar` that pass the filters, in jar order. */
  function Kept(jar: seq<Cookie>, ignoreDiscard: bool, ignoreExpires: bool, now: int): seq<Cookie>
  {
    if jar == [] then []
    else
      var last := jar[|jar| - 1];
      Kept(jar[..|jar| - 1], ignoreDiscard, ignoreExpires, now)
        + (if Survives(last, ignoreDiscard, ignoreExpires, now) then [last] else [])
  }

  /** The lines of the file `save` writes: the header, then one line per kept cookie. */
  function SavedLines(jar: seq<Cookie>, ignoreDiscard: bool, ignoreExpires: bool, now: int): seq<string>
  {
    [Header] + FormatLines(Kept(jar, ignoreDiscard, ignoreExpires, now))
  }

  // ---- load: a line parser that inverts the save format ----

  /** Reads one line; `None` when it is not seven tab-separated columns with a wildcard flag
      that agrees with the domain and a numeric (or empty) expiry. */
  function ParseLine(line: string): Option<Cookie>
  {
    var f := Split(line, '\t');
    if |f| != 7 then None
    else if (f[1] == "TRUE") != StartsWith(f[0], ".") then None
    else if f[4] != "" && ParseInt(f[4]).None? then None
    else
      var expires := if f[4] == "" then None else ParseInt(f[4]);
      Some(Cookie(
        f[0], f[2], f[3] == "TRUE", expires,
        if f[5] == "" then f[6] else f[5],
        if f[5] == "" then None else Some(f[6]),
        expires.None?))
  }

  /** What a parse produced: the cookies read before stopping, and why it stopped, if it did. */
  datatype Parsed = Parsed(cookies: seq<Cookie>, error: Option<LoadFailure>)

  /** Parses the lines after the header (the first of them is line `lineNumber` of the file),
      keeping the cookies that pass the filters, and stops at the first malformed line. */
  function ParseBody(lines: seq<string>, lineNumber: nat, ignoreDiscard: bool, ignoreExpires: bool, now: int): Parsed
  {
    if lines == [] then Parsed([], None)
    else match ParseLine(lines[0])
      case None => Parsed([], Some(MalformedLine(lineNumber)))
      case Some(c) =>
        var rest := ParseBody(lines[1..], lineNumber + 1, ignoreDiscard, ignoreExpires, now);
        Parsed((if Survives(c, ignoreDiscard, ignoreExpires, now) then [c] else []) + rest.cookies, rest.error)
  }

  function ParseFile(text: seq<string>, ignoreDiscard: bool, ignoreExpires: bool, now: int): Parsed
  {
    if |text| == 0 || text[0] != Header then Parsed([], Some(NotCookieFile))
    else ParseBody(text[1..], 2, ignoreDiscard, ignoreExpires, now)
  }

  // ---- expiry normalisation after load ----

  /** A zero expiry (falsy in Python) means "no expiry". */
  function NormaliseExpiry(c: Cookie): Cookie {
    if c.expires == Some(0) then c.(expires := None) else c
  }

  /** The jar after the normalisation loop: every zero expiry becomes `None`, every other
      expiry and every other attribute is unchanged. */
  function Normalised(jar: seq<Cookie>): (r: seq<Cookie>)
    ensures |r| == |jar|
    ensures forall i :: 0 <= i < |r| ==>
      && r[i].expires != Some(0)
      && r[i].(expires := jar[i].expires) == jar[i]
      && (jar[i].expires == Some(0) ==> r[i].expires.None?)
      && (jar[i].expires != Some(0) ==> r[i] == jar[i])
  {
    seq(|jar|, i requires 0 <= i < |jar| => NormaliseExpiry(jar[i]))
  }

  // ---- the jar ----

  /** `ECPCookieJar`: the cookies in the jar's iteration order. */
  class CookieJar {
    var cookies: seq<Cookie>

    constructor ()
      ensures cookies == []
    {
      cookies := [];
    }

    /** `save`: the header line, then one tab-separated line per cookie that is neither
        discarded nor expired (unless told to ignore either). */
    method Save(ignoreDiscard: bool, ignoreExpires: bool, now: int) returns (lines: seq<string>)
      ensures lines == SavedLines(cookies, ignoreDiscard, ignoreExpires, now)
    {
      lines := [Header];
      var i := 0;
      while i < |cookies|
        invariant 0 <= i <= |cookies|
        invariant lines == [Header] + FormatLines(Kept(cookies[..i], ignoreDiscard, ignoreExpires, now))
      {
        var cookie := cookies[i];
        i := i + 1;
        assert cookies[..i][..i - 1] == cookies[..i - 1];
        if !ignoreDiscard && cookie.discard {
          continue;
        }
        if !ignoreExpires && IsExpired(cookie, now) {
          continue;
        }
        var expires := if cookie.expires.Some? then IntToString(cookie.expires.value) else "0";
        var name, value;
        if cookie.value.None? {
          name, value := "", cookie.name;
        } else {
          name, value := cookie.name, cookie.value.value;
        }
        lines := lines + [Join([cookie.domain, WildcardFlag(cookie.domain), cookie.path,
                                BoolFlag(cookie.secure), expires, name, value], '\t')];
      }
      assert cookies[..i] == cookies;
    }

    /** The loop of `_really_load` that turns every zero expiry into `None`. */
    method NormaliseExpiries()
      modifies this
      ensures cookies == Normalised(old(cookies))
    {
      var i := 0;
      while i < |cookies|
        invariant 0 <= i <= |cookies| == |old(cookies)|
        invariant forall k :: 0 <= k < i ==> cookies[k] == NormaliseExpiry(old(cookies)[k])
        invariant forall k :: i <= k < |cookies| ==> cookies[k] == old(cookies)[k]
      {
        if cookies[i].expires == Some(0) {
          cookies := cookies[i := cookies[i].(expires := None)];
        }
        i := i + 1;
      }
    }

    /** `_really_load`: the parsed cookies are added to the jar one by one; a parse error
        stops there and propagates, otherwise every cookie in the jar is normalised. */
    method ReallyLoad(text: seq<string>, ignoreDiscard: bool, ignoreExpires: bool, now: int)
      returns (out: Outcome<LoadFailure>)
      modifies this
      ensures var p := ParseFile(text, ignoreDiscard, ignoreExpires, now);
        && out == (if p.error.None? then Pass else Fail(p.error.value))
        && cookies == (if p.error.None? then Normalised(old(cookies) + p.cookies)
                       else old(cookies) + p.cookies)
    {
      var p := ParseFile(text, ignoreDiscard, ignoreExpires, now);
      cookies := cookies + p.cookies;
      if p.error.Some? {
        return Fail(p.error.value);
      }
      NormaliseExpiries();
      out := Pass;
    }
  }

  /** The failure a load of `file` (`None`: the file cannot be opened) runs into, if any. */
  function LoadFailureOf(file: Option<seq<string>>, ignoreDiscard: bool, ignoreExpires: bool, now: int): Option<LoadFailure>
  {
    if file.None? then Some(Unreadable) else ParseFile(file.value, ignoreDiscard, ignoreExpires, now).error
  }

  /** The contents of a fresh jar after loading `file`, whether or not the load failed. */
  function LoadedCookies(file: Option<seq<string>>, ignoreDiscard: bool, ignoreExpires: bool, now: int): seq<Cookie>
  {
    if file.None? then []
    else
      var p := ParseFile(file.value, ignoreDiscard, ignoreExpires, now);
      if p.error.None? then Normalised(p.cookies) else p.cookies
  }

  /** `load_cookiejar`: a strict load propagates the failure; a lenient one returns the jar
      as the failed load left it. */
  method LoadCookieJar(file: Option<seq<string>>, strict: bool, ignoreDiscard: bool, ignoreExpires: bool, now: int)
    returns (r: Result<CookieJar, LoadFailure>)
    ensures r.Failure? <==> strict && LoadFailureOf(file, ignoreDiscard, ignoreExpires, now).Some?
    ensures r.Failure? ==> r.error == LoadFailureOf(file, ignoreDiscard, ignoreExpires, now).value
    ensures r.Success? ==> fresh(r.value) && r.value.cookies == LoadedCookies(file, ignoreDiscard, ignoreExpires, now)
  {
    var jar := new CookieJar();
    var out: Outcome<LoadFailure>;
    if file.None? {
      out := Fail(Unreadable);
    } else {
      out := jar.ReallyLoad(file.value, ignoreDiscard, ignoreExpires, now);
      assert [] + ParseFile(file.value, ignoreDiscard, ignoreExpires, now).cookies
          == ParseFile(file.value, ignoreDiscard, ignoreExpires, now).cookies;
    }
    if out.Fail? && strict {
      return Failure(out.error);
    }
    r := Success(jar);
  }

  // ---- the session cookie ----

  /** Name prefix of a Shibboleth Service Provider session cookie. */
  const SessionPrefix: string := "_shibsession_"

  /** A usable session cookie for network location `host`. */
  predicate IsSessionCookie(c: Cookie, host: string) {
    StartsWith(c.name, SessionPrefix) && c.domain == host && c.expires.None?
  }

  /** The index of the last session cookie for `host` in the jar's iteration order:
      nothing after it matches. */
  function LastSessionCookie(jar: seq<Cookie>, host: string): (r: Option<nat>)
    ensures r.Some? ==>
      && r.value < |jar|
      && IsSessionCookie(jar[r.value], host)
      && forall j :: r.value < j < |jar| ==> !IsSessionCookie(jar[j], host)
    ensures r.None? ==> forall j :: 0 <= j < |jar| ==> !IsSessionCookie(jar[j], host)
  {
    if jar == [] then None
    else if IsSessionCookie(jar[|jar| - 1], host) then Some(|jar| - 1)
    else LastSessionCookie(jar[..|jar| - 1], host)
  }

  /** The `ValueError` raised when the jar holds no session cookie for `host`. */
  datatype LookupError = NoSessionCookie(host: string)

  function SessionCookieFor(jar: seq<Cookie>, host: string): Result<Cookie, LookupError>
  {
    match LastSessionCookie(jar, host)
    case Some(i) => Success(jar[i])
    case None => Failure(NoSessionCookie(host))
  }

  /** `extract_session_cookie`: scans the jar in reverse iteration order and returns the
      first session cookie for the URL's network location, that is, the last one in
      iteration order. */
  method ExtractSessionCookie(jar: seq<Cookie>, url: string) returns (r: Result<Cookie, LookupError>)
    ensures r == SessionCookieFor(jar, Urls.Netloc(url))
  {
    var host := Urls.Netloc(url);
    var i := |jar|;
    while i > 0
      invariant 0 <= i <= |jar|
      invariant SessionCookieFor(jar, host) == SessionCookieFor(jar[..i], host)
    {
      assert jar[..i][..i - 1] == jar[..i - 1];
      i := i - 1;
      if IsSessionCookie(jar[i], host) {
        return Success(jar[i]);
      }
    }
    r := Failure(NoSessionCookie(host));
  }

  /** `has_session_cookies`: whether the lookup succeeds, i.e. whether some cookie in the
      jar is a session cookie for the URL's network location. */
  method HasSessionCookies(jar: seq<Cookie>, url: string) returns (b: bool)
    ensures b <==> SessionCookieFor(jar, Urls.Netloc(url)).Success?
    ensures b <==> exists i :: 0 <= i < |jar| && IsSessionCookie(jar[i], Urls.Netloc(url))
  {
    var r := ExtractSessionCookie(jar, url);
    b := r.Success?;
  }
}
