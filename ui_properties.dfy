/** What the certificate request promises: a complex export password, a lifetime that is
    the ceiling of the requested hours, a form with exactly the four fields, and the same
    CSRF token in the `Cookie` header and in the form (double-submit). */
module UiProperties {
  import opened Wrappers
  import opened Text
  import opened Cookies
  import opened Urls
  import opened Ui

  /** The export password is at least 20 characters long and holds a letter, a digit and
      a punctuation character from the fixed set. */
  lemma PasswordComplexity(draw: nat -> nat)
    ensures var p := Password(draw);
      && |p| >= 20
      && (exists i :: 0 <= i < |p| && IsAsciiLetter(p[i]))
      && (exists i :: 0 <= i < |p| && IsDigit(p[i]))
      && (exists i :: 0 <= i < |p| && p[i] in Punctuation)
  {
    var p := Password(draw);
    assert IsAsciiLetter(p[0]) && IsDigit(p[16]) && p[18] in Punctuation;
  }

  /** Fractional hours round up, whole hours stay. */
  lemma CeilExamples()
    ensures Ceil(1.2) == 2
    ensures Ceil(168.0) == 168
    ensures Ceil(0.5) == 1
  {
  }

  lemma CertFormAscii(csrf: string, password: string, hours: real)
    requires IsAscii(csrf) && IsAscii(password)
    ensures AsciiFields(CertForm(csrf, password, hours))
  {
    var lifetime := IntToString(Ceil(hours));
    assert IsAscii(lifetime);
  }

  /** A server decoding the body gets back the form, field by field. */
  lemma CertBodyDecodes(csrf: string, password: string, hours: real)
    requires IsAscii(csrf) && IsAscii(password)
    ensures DecodeForm(CertBody(csrf, password, hours)) == CertForm(csrf, password, hours)
  {
    CertFormAscii(csrf, password, hours);
    DecodeEncodedForm(CertForm(csrf, password, hours));
  }

  /** A server decoding the body finds exactly the four fields `submit=pkcs12`, `CSRF`,
      `p12password` and `p12lifetime`, in that order, and the lifetime reads as the
      whole number of hours that is the ceiling of the request. */
  lemma CertBodyFields(csrf: string, password: string, hours: real)
    requires IsAscii(csrf) && IsAscii(password)
    ensures var f := DecodeForm(CertBody(csrf, password, hours));
      && |f| == 4
      && f[0] == ("submit", "pkcs12")
      && f[1] == ("CSRF", csrf)
      && f[2] == ("p12password", password)
      && f[3].0 == "p12lifetime"
      && ParseInt(f[3].1) == Some(Ceil(hours))
      && Ceil(hours) as real >= hours && (Ceil(hours) as real) < hours + 1.0
  {
    CertBodyDecodes(csrf, password, hours);
    ParseIntToString(Ceil(hours));
  }

  /** Drops the single space that follows `;` between two cookies. */
  function DropSpace(s: string): string {
    if |s| > 0 && s[0] == ' ' then s[1..] else s
  }

  /** How a server reads a `Cookie` header: `name=value` pairs separated by `; `. */
  function ParseCookieHeader(h: string): seq<(string, string)>
  {
    var parts := Split(h, ';');
    seq(|parts|, i requires 0 <= i < |parts| => SplitFirst(DropSpace(parts[i]), '='))
  }

  lemma FirstPartOfHeader(csrf: string, cookie: Cookie)
    requires ';' !in csrf
    ensures Split(CookieHeader(csrf, cookie), ';')
         == ["CSRF=" + csrf] + Split(" " + cookie.name + "=" + ValueText(cookie.value), ';')
  {
    var rest := " " + cookie.name + "=" + ValueText(cookie.value);
    assert CookieHeader(csrf, cookie) == ("CSRF=" + csrf) + [';'] + rest;
    SplitAfterPart("CSRF=" + csrf, ';', rest);
  }

  /** The first cookie of the header is the CSRF token, whatever the session cookie is. */
  lemma CookieHeaderLeadsWithCsrf(csrf: string, cookie: Cookie)
    requires ';' !in csrf && '=' !in csrf
    ensures ParseCookieHeader(CookieHeader(csrf, cookie))[0] == ("CSRF", csrf)
  {
    FirstPartOfHeader(csrf, cookie);
    assert "CSRF=" + csrf == "CSRF" + ['='] + csrf;
    SplitFirstAt("CSRF", '=', csrf);
  }

  /** A server reads back exactly two cookies: the CSRF token and the session cookie's
      name and value (`None` for a valueless one). */
  lemma CookieHeaderPairs(csrf: string, cookie: Cookie)
    requires ';' !in csrf && '=' !in csrf
    requires ';' !in cookie.name && '=' !in cookie.name && ';' !in ValueText(cookie.value)
    ensures ParseCookieHeader(CookieHeader(csrf, cookie)) == [("CSRF", csrf), (cookie.name, ValueText(cookie.value))]
  {
    var h := CookieHeader(csrf, cookie);
    var pair := cookie.name + "=" + ValueText(cookie.value);
    FirstPartOfHeader(csrf, cookie);
    CookieHeaderLeadsWithCsrf(csrf, cookie);
    assert " " + cookie.name + "=" + ValueText(cookie.value) == " " + pair;
    assert ';' !in " " + pair;
    SplitNoSep(" " + pair, ';');
    var parts := Split(h, ';');
    assert parts == ["CSRF=" + csrf, " " + pair];
    assert (" " + pair)[1..] == pair;
    assert DropSpace(" " + pair) == cookie.name + ['='] + ValueText(cookie.value);
    SplitFirstAt(cookie.name, '=', ValueText(cookie.value));
    var r := ParseCookieHeader(h);
    assert |r| == 2 && r[1] == SplitFirst(DropSpace(parts[1]), '=');
  }

  /** Double-submit: the CSRF token of the `Cookie` header and the `CSRF` form field are
      the same generated token. */
  lemma CsrfDoubleSubmit(draw: nat -> nat, hours: real, cookie: Cookie)
    ensures var token := Csrf(draw);
      && CertHeaders(token, cookie)[1].0 == "Cookie"
      && ParseCookieHeader(CertHeaders(token, cookie)[1].1)[0] == ("CSRF", token)
      && |DecodeForm(CertBody(token, Password(draw), hours))| == 4
      && DecodeForm(CertBody(token, Password(draw), hours))[1] == ("CSRF", token)
  {
    var token := Csrf(draw);
    assert ';' !in token && '=' !in token by {
      forall i | 0 <= i < |token| ensures token[i] != ';' && token[i] != '=' {
        assert IsAsciiLetter(token[i]) || IsDigit(token[i]);
      }
    }
    CookieHeaderLeadsWithCsrf(token, cookie);
    CertBodyFields(token, Password(draw), hours);
  }
}
