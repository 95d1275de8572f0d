# ciecplib cookie store and certificate request, in Dafny

This project models two parts of ciecplib, a client for SAML ECP (Enhanced Client/Proxy)
authentication:

- **the cookie store** (`ciecplib/cookies.py`): `ECPCookieJar.save` writes the jar in the
  Netscape/Mozilla `cookies.txt` format, `_really_load` turns every zero expiry back into
  "no expiry" after a load, `extract_session_cookie` finds the Shibboleth session cookie
  for a Service Provider URL that comes last in the jar's iteration order, `has_session_cookies` asks whether there is one, and
  `load_cookiejar` loads a jar strictly or leniently;
- **the certificate request** (`ciecplib/ui.py`): `get_cookie` authenticates and then looks the
  session cookie up; `get_cert` builds a CSRF token, a PKCS#12 export password, a form body and
  headers, posts them to the Service Provider and decodes the answer with the same password.

Files:

- `wrappers.dfy`: `Option`, `Result` and `Outcome`, standing for the source's `None` and exceptions.
- `text.dfy`: splitting and joining on a character (`str.split`, `str.join`), and decimal
  integers as `str(int)` writes them, with a reader that inverts them.
- `urls.dfy`: the network location of a URL (`urlparse(url).netloc`), and
  `urlencode`/`quote_plus` with a form decoder that inverts them.
- `cookies.dfy`: the `Cookie` datatype, the `CookieJar` class (`Save`, `ReallyLoad`,
  `NormaliseExpiries`), a line parser that inverts the save format, `LoadCookieJar`,
  `ExtractSessionCookie` and `HasSessionCookies`.
- `cookie_properties.dfy`: the shape of a saved line, the save filter, the save/load round trip,
  the normalisation, and the session-cookie lookup.
- `ui.dfy`: the random strings, the request builders, the `Session` collaborator with a
  record of its effects, `GetCookie` and `GetCert`.
- `ui_properties.dfy`: the password's complexity, the ceiling of the lifetime, the four form
  fields, and the double-submitted CSRF token.

The jar is a sequence of cookies in the jar's iteration order. The cookie file is a sequence
of lines whose first line is the header. A missing expiry is `None` and a valueless cookie has
`value == None`. `now` stands for `time.time()`. It is a whole number of seconds: for an
integer expiry `e`, `e <= t` holds exactly when `e <= floor(t)`.

The entropy behind `random_string` is a parameter `draw: nat -> nat`. The calls take
consecutive draws: draws 0-9 for the CSRF token, 10-25 for the letters, 26-27 for the digits
and 28-29 for the punctuation. The Identity Provider, the HTTP transport and the PKCS#12
decoder are methods of the `Session` class. Each appends an `Effect` to a ghost `trace`, so
`GetCert`'s contract can state the order of effects: authenticate, then POST, then decode.

Points where the code's behaviour is easy to misread:

- Only a zero expiry becomes `None` after a load (`if not cookie.expires`). A negative expiry
  is kept.
- After a failed lenient load, `load_cookiejar` returns the jar as the failed load left it.
  That jar holds the cookies parsed before the bad line, not normalised.
- The name/value swap applies to cookies whose value is `None`. An empty string value is
  written unchanged.
- `get_cookie` always authenticates first and then looks the cookie up once.
- The comment at `ciecplib/ui.py:57-59` says the lookup picks "the most recent" session
  cookie. The code returns the matching cookie that comes last in the jar's iteration order
  (`list(jar)[::-1]`), and the model states exactly that.
- The `Cookie` header is built with `str.format`, so a valueless session cookie is sent as
  `name=None` (`Ui.ValueText`).

Two consequences of the format are proved as lemmas. A valued cookie with an empty name is
written exactly like a valueless cookie named after its value
(`CookieProperties.EmptyNameCollides`), so the round trip excludes it. A cookie without an
expiry is saved with expiry `0`. A load that checks expiry therefore drops it
(`CookieProperties.ExpiryCheckedLoadDropsSessionCookies`). `load_cookiejar` ignores expiry by
default.

## Model

| member | source | states |
|---|---|---|
| `Cookies.CookieJar.Save` | ciecplib/cookies.py:39-72 | the lines written are the header followed by one formatted line per cookie that passes the discard and expiry filters, in jar order |
| `CookieProperties.SavedLineColumns` | ciecplib/cookies.py:47-72 | a saved line splits on tabs into exactly seven columns: domain; `TRUE`/`FALSE` iff the domain starts with `.`; path; `TRUE`/`FALSE` from `secure`; `0` for a missing expiry, else a numeral that reads back as the expiry; empty name and the name as value for a valueless cookie, else name and value |
| `CookieProperties.KeptMembers` | ciecplib/cookies.py:42-46 | a cookie is saved iff it is in the jar and is not discarded (unless discard is ignored) and not expired (unless expiry is ignored); nothing else is filtered |
| `CookieProperties.KeptConcat` | ciecplib/cookies.py:42-46 | filtering distributes over concatenation, so the saved cookies keep the jar's order |
| `CookieProperties.KeptAll` | ciecplib/cookies.py:42-46 | with both filters ignored every cookie is saved |
| `CookieProperties.SaveLoadRoundTrip` | ciecplib/cookies.py:39-84 | loading a saved file gives back the saved cookies in order, equal in domain, path, secure, name and value, with a missing expiry still missing after normalisation |
| `CookieProperties.EmptyNameCollides` | ciecplib/cookies.py:55-63 | a valued cookie with an empty name saves to the same line as the valueless cookie named after its value |
| `CookieProperties.ExpiryCheckedLoadDropsSessionCookies` | ciecplib/cookies.py:47-54 | a cookie without expiry, saved with the sentinel `0`, is dropped by a load that checks expiry at any time from the epoch on |
| `Cookies.Normalised` | ciecplib/cookies.py:81-83 | after normalisation every zero expiry has become `None` and none is left; every other expiry and every other attribute is unchanged |
| `Cookies.CookieJar.NormaliseExpiries` | ciecplib/cookies.py:81-83 | the loop leaves the jar equal to the normalised old jar |
| `Cookies.CookieJar.ReallyLoad` | ciecplib/cookies.py:74-84 | parsed cookies are appended to the jar; on success the whole jar is normalised and the load passes, on a parse error the jar keeps the cookies read so far and the error propagates |
| `Cookies.LoadCookieJar` | ciecplib/cookies.py:147-178 | a fresh jar is loaded; the call fails iff strict and the file is unreadable or malformed, with that error; otherwise it returns the jar the load left |
| `Cookies.LastSessionCookie` | ciecplib/cookies.py:110-120 | the index found is a session cookie for the host (prefix `_shibsession_`, domain equal to the host, no expiry) and no later cookie is one; none is found iff no cookie is one |
| `Cookies.ExtractSessionCookie` | ciecplib/cookies.py:89-120 | the reverse scan returns the session cookie for the URL's network location that is last in the jar's iteration order, or the not-found error |
| `Cookies.HasSessionCookies` | ciecplib/cookies.py:123-144 | true iff the lookup succeeds, iff some cookie in the jar is a session cookie for the URL's network location |
| `CookieProperties.LastMatchWins` | ciecplib/cookies.py:110-117 | a session cookie that comes after every other cookie in the jar's iteration order is the one returned |
| `CookieProperties.SessionCookieLookupExample` | ciecplib/cookies.py:110-120 | a `_shibsession_` cookie of `sp.example.org` is found for `https://sp.example.org/secure` and not for `https://other.example.org/` |
| `Urls.NetlocOfUrl` | ciecplib/cookies.py:110 | the network location of `scheme://host` followed by a path, query or fragment is `host` |
| `Text.SplitJoin` | ciecplib/cookies.py:64-72 | splitting a tab-joined line gives back its columns when none contains a tab |
| `Text.ParseIntToString` | ciecplib/cookies.py:47-48 | the decimal text of an expiry reads back as the expiry |
| `Ui.RandomString` | ciecplib/ui.py:82-91 | a random string has the requested length and only characters of its alphabet |
| `Ui.Csrf` | ciecplib/ui.py:82 | the CSRF token has ten characters, each an ASCII letter or digit |
| `Ui.Password` | ciecplib/ui.py:87-91 | the export password has 20 characters: 16 ASCII letters, then 2 digits, then 2 from `!@#$%^&*()` |
| `UiProperties.PasswordComplexity` | ciecplib/ui.py:87-91 | the password is at least 20 long and holds a letter, a digit and a punctuation character |
| `Ui.Ceil` | ciecplib/ui.py:96 | the lifetime is the least integer not below the requested hours |
| `UiProperties.CeilExamples` | ciecplib/ui.py:96 | 1.2 hours becomes 2, 168 stays 168, 0.5 becomes 1 |
| `UiProperties.CertBodyFields` | ciecplib/ui.py:92-97 | the decoded body has exactly the fields `submit=pkcs12`, `CSRF`, `p12password` and `p12lifetime` in order, and the lifetime reads as the ceiling of the hours |
| `UiProperties.CertBodyDecodes` | ciecplib/ui.py:92-97 | decoding the request body gives back the ordered form fields it was built from |
| `Urls.DecodeEncodedForm` | ciecplib/ui.py:92-97 | decoding a urlencoded form gives back its fields in order |
| `Urls.UnquoteQuote` | ciecplib/ui.py:92-97 | unquoting a `quote_plus`-quoted ASCII value gives back the value |
| `UiProperties.CookieHeaderLeadsWithCsrf` | ciecplib/ui.py:83-85 | the first cookie a server reads from the `Cookie` header is `CSRF` with the token, whatever the session cookie |
| `UiProperties.CookieHeaderPairs` | ciecplib/ui.py:83-86 | a server reads exactly two cookies from the header: the CSRF token, then the session cookie's name and value |
| `UiProperties.CsrfDoubleSubmit` | ciecplib/ui.py:82-97 | the CSRF cookie in the header and the `CSRF` form field carry the same generated token |
| `Ui.GetCookie` | ciecplib/ui.py:51-60 | one authentication effect for the URL comes first; the result is the authentication error, or the lookup in the jar as authentication left it, which is the jar on return |
| `Ui.GetCert` | ciecplib/ui.py:74-109 | authentication for the SP URL comes first; if it or the lookup in the jar as authentication left it fails, nothing is posted and that error is returned; otherwise the POST to the SP URL carries the form body and headers holding that session cookie, the decode that follows uses the response and the same password that was in the form, and a failure can only be the decode error |
| `Ui.Session.LoadPkcs12` | ciecplib/ui.py:106-109 | the decode is recorded; a bundle holds the archive, and a failure is the decode error |

## Left out

- File I/O: `save` returns the file's lines and a load takes them. The open file, the newline
  printed after each line and the OS errors other than "cannot be read" are not modelled.
- The standard library's `MozillaCookieJar` parser and header are not part of this model.
  `Cookies.ParseLine` is an inverse of the save format written for this model. It reads seven
  tab-separated columns, with the same flag, swap and empty-expiry conventions. Comment lines,
  blank lines and the `#HttpOnly_` prefix are not accepted. The header is a one-line constant.
- The jar is a sequence in its iteration order. The standard library jar iterates sorted by
  domain, path and name, and keeps one cookie per (domain, path, name). That bookkeeping is
  not part of this model. In particular the model does not say when a cookie was set: the
  session-cookie lookup is stated in iteration order, and insertion recency is not modelled.
- `Cookies.CookieJar.Save`: `save` calls `time.time()` afresh for every cookie
  (`ciecplib/cookies.py:45`). The model uses one `now` for the whole save, so a cookie that
  expires while the file is being written is not modelled.
- `CookieProperties.SaveLoadRoundTrip`: on load, the base class `RequestsCookieJar.set_cookie`
  (`ciecplib/cookies.py:33` inherits it) removes every `\"` from a value that starts and ends
  with `"`. The model's load keeps values as written, so the round trip does not hold in the
  source for such values, and the model does not capture that.
- Cookie attributes other than domain, path, secure, expires, name, value and discard are not
  modelled (port, version, comment, `HttpOnly` and the rest).
- `Urls.Netloc` follows `urlsplit` for the usual case: a scheme before the first colon, then
  `//` and the text up to `/`, `?` or `#`. It does not strip whitespace or control characters,
  and it does not reject malformed bracketed hosts.
- `random_string` lives in `ciecplib/utils.py`, which is not part of this model. Its entropy is
  the `draw` parameter, so neither uniformity nor cryptographic strength is stated. The CSRF
  token's alphabet is taken to be the ASCII letters and digits.
- The ECP/PAOS handshake, `requests`' `post` and OpenSSL's `load_pkcs12` are foreign code. They
  are stand-in methods of `Ui.Session` whose contracts record only the effect.
- `Ui.Session.LoadPkcs12`: its contract does not say when decoding fails, because the PKCS#12
  format is not modelled.
- `Ui.Session.EcpAuthenticate`: its contract does not say how authentication changes the jar,
  because that is up to the Identity Provider and the Service Provider. It records the jar's
  contents after the handshake in the trace.
- `Ui.Session.Post`: the response may set cookies, so the jar may change in any way; the
  contract does not say how.
- `hours` is a real number. Floating-point rounding before `math.ceil` is not modelled.
- `urlencode` is modelled for ASCII text only. Every field the request sends is ASCII, so
  `.encode('utf-8')` leaves it unchanged.
- The `_ecp_session` decorator, the `with session` blocks, the debug prints and the
  `endpoint`, `username`, `kerberos` and `debug` parameters are plumbing.
- `ciecplib/sessions.py` (session construction and cookie caching on close) and
  `ciecplib/tool/ecp_cert_info.py` (the command-line tool) are not part of this model.
