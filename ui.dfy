/** The certificate-request flow (ciecplib/ui.py): authenticate, find the session cookie,
    build the PKCS#12 request (CSRF token, export password, form body, headers), post it and
    decode the answer with the same password. */
module Ui {
  import opened Wrappers
  import opened Text
  import opened Cookies
  import opened Urls

  // ---- random strings ----

  /** The `n` consecutive characters from `first` on. */
  function CharRange(first: char, n: nat): (s: string)
    requires first as int + n <= 128
    ensures |s| == n && forall i :: 0 <= i < n ==> s[i] as int == first as int + i
  {
    seq(n, i requires 0 <= i < n => (first as int + i) as char)
  }

  /** `string.ascii_letters`, "abcdefghijklmnopqrstuvwxyzABCDEFGHIJKLMNOPQRSTUVWXYZ". */
  const Letters: string := CharRange('a', 26) + CharRange('A', 26)
  /** `string.digits`, "0123456789". */
  const Digits: string := CharRange('0', 10)
  /** The punctuation the export password ends with. */
  const Punctuation: string := "!@#$%^&*()"
  /** The default alphabet of `random_string`, taken to be the ASCII letters and digits. */
  const Alphanumerics: string := Letters + Digits

  /** `random_string(n, alphabet)`: `n` characters of `alphabet`, the `k`-th chosen by the
      entropy source's draw number `offset + k`. */
  function RandomString(n: nat, alphabet: string, draw: nat -> nat, offset: nat): (s: string)
    requires |alphabet| > 0
    ensures |s| == n
    ensures forall i :: 0 <= i < n ==> s[i] in alphabet
  {
    seq(n, k requires 0 <= k < n => alphabet[draw(offset + k) % |alphabet|])
  }

  lemma LettersAreLetters()
    ensures forall k :: 0 <= k < |Letters| ==> IsAsciiLetter(Letters[k])
  {
  }

  lemma DigitsAreDigits()
    ensures forall k :: 0 <= k < |Digits| ==> IsDigit(Digits[k])
  {
  }

  /** The CSRF token: ten letters or digits (draws 0 to 9). */
  function Csrf(draw: nat -> nat): (token: string)
    ensures |token| == 10
    ensures forall i :: 0 <= i < 10 ==> IsAsciiLetter(token[i]) || IsDigit(token[i])
    ensures IsAscii(token)
  {
    LettersAreLetters();
    DigitsAreDigits();
    RandomString(10, Alphanumerics, draw, 0)
  }

  /** The PKCS#12 export password: 16 letters, 2 digits and 2 punctuation characters
      (draws 10 to 29). */
  function Password(draw: nat -> nat): (p: string)
    ensures |p| == 20
    ensures forall i :: 0 <= i < 16 ==> IsAsciiLetter(p[i])
    ensures forall i :: 16 <= i < 18 ==> IsDigit(p[i])
    ensures forall i :: 18 <= i < 20 ==> p[i] in Punctuation
    ensures IsAscii(p)
  {
    LettersAreLetters();
    DigitsAreDigits();
    RandomString(16, Letters, draw, 10) + RandomString(2, Digits, draw, 26) + RandomString(2, Punctuation, draw, 28)
  }

  // ---- the request ----

  /** `math.ceil(hours)`: the least integer not below `hours`. */
  function Ceil(hours: real): (n: int)
    ensures n as real >= hours && (n as real) < hours + 1.0
  {
    -((-hours).Floor)
  }

  /** The form fields, in the order they are encoded. */
  function CertForm(csrf: string, password: string, hours: real): seq<(string, string)>
  {
    [("submit", "pkcs12"), ("CSRF", csrf), ("p12password", password), ("p12lifetime", IntToString(Ceil(hours)))]
  }

  /** The encoded request body. */
  function CertBody(csrf: string, password: string, hours: real): string
    requires IsAscii(csrf) && IsAscii(password)
  {
    var lifetime := IntToString(Ceil(hours));
    assert IsAscii(lifetime);
    UrlEncode(CertForm(csrf, password, hours))
  }

  /** How `str.format` renders a cookie value: `None` for a valueless cookie. */
  function ValueText(value: Option<string>): string {
    if value.Some? then value.value else "None"
  }

  /** The `Cookie` header: the CSRF token as a cookie, then the session cookie. */
  function CookieHeader(csrf: string, cookie: Cookie): string {
    "CSRF=" + csrf + "; " + cookie.name + "=" + ValueText(cookie.value)
  }

  const FormContentType: string := "application/x-www-form-urlencoded"

  function CertHeaders(csrf: string, cookie: Cookie): seq<(string, string)> {
    [("Content-Type", FormContentType), ("Cookie", CookieHeader(csrf, cookie))]
  }

  // ---- the session and its effects ----

  /** What the flow does to the outside world, in order. */
  datatype Effect =
    | Authenticated(url: string, accepted: bool, cookies: seq<Cookie>)
    | Posted(url: string, body: string, headers: seq<(string, string)>, response: seq<bv8>)
    | Decoded(archive: seq<bv8>, password: string)

  datatype IssueError = AuthenticationError | LookupFailed(cause: LookupError) | CertificateDecodeError

  /** The key, certificate and chain a PKCS#12 archive holds; opaque here. */
  datatype Bundle = Bundle(archive: seq<bv8>)

  /** The authenticated HTTP session: its cookie jar and a record of its effects. The
      Identity Provider's verdict, the cookies the Service Provider sets and the archive it
      answers with are fixed stand-ins; callers rely only on the methods' contracts. */
  class Session {
    const jar: CookieJar
    ghost var trace: seq<Effect>
    const idpAccepts: bool
    const issuedCookies: seq<Cookie>
    const archive: seq<bv8>

    constructor (jar: CookieJar, idpAccepts: bool, issuedCookies: seq<Cookie>, archive: seq<bv8>)
      ensures this.jar == jar && trace == []
    {
      this.jar := jar;
      this.idpAccepts := idpAccepts;
      this.issuedCookies := issuedCookies;
      this.archive := archive;
      trace := [];
    }

    /** `ecp_authenticate(url)`: the ECP handshake, which may change the jar in any way.
        The trace records the verdict and the jar's contents as the handshake left them. */
    method EcpAuthenticate(url: string) returns (accepted: bool)
      modifies this, jar
      ensures trace == old(trace) + [Authenticated(url, accepted, jar.cookies)]
    {
      accepted := idpAccepts;
      if accepted {
        // stand-in: the Service Provider's cookies join the jar
        jar.cookies := jar.cookies + issuedCookies;
      }
      trace := trace + [Authenticated(url, accepted, jar.cookies)];
    }

    /** `post(url, data, headers)`: returns the response body. Cookies the response sets
        are merged into the jar, so the jar may change in any way. */
    method Post(url: string, body: string, headers: seq<(string, string)>) returns (response: seq<bv8>)
      modifies this, jar
      ensures trace == old(trace) + [Posted(url, body, headers, response)]
    {
      response := archive;
      trace := trace + [Posted(url, body, headers, response)];
    }

    /** `crypto.load_pkcs12(archive, password)`. */
    method LoadPkcs12(archive: seq<bv8>, password: string) returns (r: Result<Bundle, IssueError>)
      modifies this
      ensures trace == old(trace) + [Decoded(archive, password)]
      ensures r.Success? ==> r.value.archive == archive
      ensures r.Failure? ==> r.error == CertificateDecodeError
    {
      r := if |archive| > 0 then Success(Bundle(archive)) else Failure(CertificateDecodeError);
      trace := trace + [Decoded(archive, password)];
    }
  }

  /** The session cookie for `url` in `jar`, or why there is none. */
  function CookieLookup(jar: seq<Cookie>, url: string): Result<Cookie, IssueError>
  {
    match SessionCookieFor(jar, Netloc(url))
    case Success(c) => Success(c)
    case Failure(e) => Failure(LookupFailed(e))
  }

  /** `get_cookie`: authenticate against the Identity Provider first, then look the session
      cookie up in the jar as authentication left it, which is the jar on return. */
  method GetCookie(sess: Session, url: string) returns (r: Result<Cookie, IssueError>)
    modifies sess, sess.jar
    ensures |sess.trace| == |old(sess.trace)| + 1
    ensures sess.trace[..|old(sess.trace)|] == old(sess.trace)
    ensures var auth := sess.trace[|old(sess.trace)|];
      && auth.Authenticated? && auth.url == url
      && auth.cookies == sess.jar.cookies
      && r == (if auth.accepted then CookieLookup(auth.cookies, url) else Failure(AuthenticationError))
  {
    var accepted := sess.EcpAuthenticate(url);
    if !accepted {
      return Failure(AuthenticationError);
    }
    var found := ExtractSessionCookie(sess.jar.cookies, url);
    r := match found
      case Success(c) => Success(c)
      case Failure(e) => Failure(LookupFailed(e));
  }

  /** `get_cert`: get the session cookie, and only then post the certificate request, with
      the cookie found in the jar as authentication left it, and decode the answer with the
      password the request carried. */
  method GetCert(sess: Session, spurl: string, hours: real, draw: nat -> nat) returns (r: Result<Bundle, IssueError>)
    modifies sess, sess.jar
    ensures |sess.trace| > |old(sess.trace)|
    ensures sess.trace[..|old(sess.trace)|] == old(sess.trace)
    ensures var t0 := |old(sess.trace)|;
      var auth := sess.trace[t0];
      && auth.Authenticated? && auth.url == spurl
      && var lookup := CookieLookup(auth.cookies, spurl);
      && if !auth.accepted || lookup.Failure? then
           && |sess.trace| == t0 + 1
           && r == Failure(if !auth.accepted then AuthenticationError else lookup.error)
         else
           && |sess.trace| == t0 + 3
           && var post := sess.trace[t0 + 1];
           && post.Posted?
           && post == Posted(spurl, CertBody(Csrf(draw), Password(draw), hours),
                           CertHeaders(Csrf(draw), lookup.value), post.response)
           && sess.trace[t0 + 2] == Decoded(post.response, Password(draw))
           && (r.Success? ==> r.value.archive == post.response)
           && (r.Failure? ==> r.error == CertificateDecodeError)
  {
    var cookie := GetCookie(sess, spurl);
    if cookie.Failure? {
      return Failure(cookie.error);
    }
    var csrf := Csrf(draw);
    var headers := CertHeaders(csrf, cookie.value);
    var password := Password(draw);
    var body := CertBody(csrf, password, hours);
    var response := sess.Post(spurl, body, headers);
    r := sess.LoadPkcs12(response, password);
  }
}
