/** The two pieces of URL handling the core leans on: the network location of a URL
    (`urlparse(url).netloc`) and `application/x-www-form-urlencoded` bodies (`urlencode`). */
module Urls {
  import opened Text

  // ---- network location ----

  predicate IsSchemeChar(c: char) {
    IsAsciiLetter(c) || IsDigit(c) || c == '+' || c == '-' || c == '.'
  }

  predicate IsScheme(s: string) {
    |s| > 0 && IsAsciiLetter(s[0]) && forall i :: 0 <= i < |s| ==> IsSchemeChar(s[i])
  }

  /** Characters that end the network location. */
  predicate EndsNetloc(c: char) {
    c == '/' || c == '?' || c == '#'
  }

  /** The longest prefix of `s` with no character that ends a network location. */
  function NetlocPrefix(s: string): (r: string)
    ensures |r| <= |s| && r == s[..|r|]
    ensures forall i :: 0 <= i < |r| ==> !EndsNetloc(r[i])
    ensures |r| < |s| ==> EndsNetloc(s[|r|])
  {
    if s == [] || EndsNetloc(s[0]) then "" else [s[0]] + NetlocPrefix(s[1..])
  }

  /** `url` without its leading `scheme:`, when the text before the first colon is a scheme. */
  function AfterScheme(url: string): string
  {
    var (before, after) := SplitFirst(url, ':');
    if before != url && IsScheme(before) then after else url
  }

  /** The network location of `url`: after the scheme, the text following `//` up to the
      first `/`, `?` or `#`; empty when there is no `//`. */
  function Netloc(url: string): string
  {
    var rest := AfterScheme(url);
    if |rest| >= 2 && rest[0] == '/' && rest[1] == '/' then NetlocPrefix(rest[2..]) else ""
  }

  lemma {:induction false} NetlocPrefixOf(host: string, tail: string)
    requires forall i :: 0 <= i < |host| ==> !EndsNetloc(host[i])
    requires tail == [] || EndsNetloc(tail[0])
    ensures NetlocPrefix(host + tail) == host
  {
    if host != [] {
      assert (host + tail)[1..] == host[1..] + tail;
      NetlocPrefixOf(host[1..], tail);
      assert [host[0]] + host[1..] == host;
    } else {
      assert host + tail == tail;
    }
  }

  /** The network location of `scheme://host<tail>` is `host`, whatever the tail
      (path, query or fragment) holds. */
  lemma NetlocOfUrl(scheme: string, host: string, tail: string)
    requires IsScheme(scheme)
    requires forall i :: 0 <= i < |host| ==> !EndsNetloc(host[i])
    requires tail == [] || EndsNetloc(tail[0])
    ensures Netloc(scheme + "://" + host + tail) == host
  {
    var url := scheme + "://" + host + tail;
    var rest := "//" + host + tail;
    assert url == scheme + [':'] + rest;
    assert ':' !in scheme by {
      forall i | 0 <= i < |scheme| ensures scheme[i] != ':' {
        assert IsSchemeChar(scheme[i]);
      }
    }
    SplitFirstAt(scheme, ':', rest);
    assert scheme != url;
    assert AfterScheme(url) == rest;
    assert rest[2..] == host + tail;
    NetlocPrefixOf(host, tail);
  }

  // ---- form encoding ----

  /** Characters `quote_plus` leaves as they are. */
  predicate IsUnreserved(c: char) {
    IsAsciiLetter(c) || IsDigit(c) || c == '_' || c == '.' || c == '-' || c == '~'
  }

  predicate IsAscii(s: string) {
    forall i :: 0 <= i < |s| ==> s[i] as int < 128
  }

  function HexDigit(d: nat): char
    requires d < 16
  {
    if d < 10 then ('0' as int + d) as char else ('A' as int + d - 10) as char
  }

  predicate IsHexDigit(c: char) {
    IsDigit(c) || ('A' <= c <= 'F')
  }

  function HexValue(c: char): (d: nat)
    requires IsHexDigit(c)
    ensures d < 16
  {
    if IsDigit(c) then c as int - '0' as int else c as int - 'A' as int + 10
  }

  /** One character as `quote_plus` writes it: unreserved ones unchanged, a space as `+`,
      any other ASCII character as `%` and two upper-case hex digits. */
  function QuoteChar(c: char): (q: string)
    requires c as int < 128
  {
    if IsUnreserved(c) then [c]
    else if c == ' ' then "+"
    else "%" + [HexDigit(c as int / 16), HexDigit(c as int % 16)]
  }

  /** Python's `quote_plus` on ASCII text. */
  function QuotePlus(s: string): (q: string)
    requires IsAscii(s)
    ensures '&' !in q && '=' !in q
  {
    if s == [] then "" else QuoteChar(s[0]) + QuotePlus(s[1..])
  }

  /** Python's `unquote_plus` on the escapes `quote_plus` writes. */
  function UnquotePlus(q: string): string
  {
    if q == [] then ""
    else if q[0] == '%' && |q| >= 3 && IsHexDigit(q[1]) && IsHexDigit(q[2]) then
      [(HexValue(q[1]) * 16 + HexValue(q[2])) as char] + UnquotePlus(q[3..])
    else if q[0] == '+' then " " + UnquotePlus(q[1..])
    else [q[0]] + UnquotePlus(q[1..])
  }

  lemma UnquoteChar(c: char, rest: string)
    requires c as int < 128
    ensures UnquotePlus(QuoteChar(c) + rest) == [c] + UnquotePlus(rest)
  {
    var q := QuoteChar(c) + rest;
    if IsUnreserved(c) {
      assert q[1..] == rest;
    } else if c == ' ' {
      assert q[1..] == rest;
    } else {
      assert q[3..] == rest;
      assert HexValue(q[1]) == c as int / 16;
      assert HexValue(q[2]) == c as int % 16;
    }
  }

  /** Unquoting undoes quoting. */
  lemma {:induction false} UnquoteQuote(s: string)
    requires IsAscii(s)
    ensures UnquotePlus(QuotePlus(s)) == s
  {
    if s != [] {
      UnquoteQuote(s[1..]);
      UnquoteChar(s[0], QuotePlus(s[1..]));
      assert [s[0]] + s[1..] == s;
    }
  }

  predicate AsciiFields(fields: seq<(string, string)>) {
    forall i :: 0 <= i < |fields| ==> IsAscii(fields[i].0) && IsAscii(fields[i].1)
  }

  function EncodePair(field: (string, string)): string
    requires IsAscii(field.0) && IsAscii(field.1)
  {
    QuotePlus(field.0) + "=" + QuotePlus(field.1)
  }

  function EncodePairs(fields: seq<(string, string)>): (r: seq<string>)
    requires AsciiFields(fields)
    ensures |r| == |fields|
    ensures forall i :: 0 <= i < |r| ==> r[i] == EncodePair(fields[i])
  {
    if fields == [] then [] else [EncodePair(fields[0])] + EncodePairs(fields[1..])
  }

  /** Python's `urlencode` of an ordered mapping with ASCII keys and values:
      `key=value` pairs, each side quoted, joined by `&`. */
  function UrlEncode(fields: seq<(string, string)>): string
    requires AsciiFields(fields)
  {
    Join(EncodePairs(fields), '&')
  }

  function DecodePair(p: string): (string, string)
  {
    var (k, v) := SplitFirst(p, '=');
    (UnquotePlus(k), UnquotePlus(v))
  }

  /** Reads a form body back into its ordered fields, as a server does (`parse_qsl`). */
  function DecodeForm(body: string): (fields: seq<(string, string)>)
  {
    var parts := Split(body, '&');
    seq(|parts|, i requires 0 <= i < |parts| => DecodePair(parts[i]))
  }

  /** Decoding an encoded form gives back the fields, in order. */
  lemma DecodeEncodedForm(fields: seq<(string, string)>)
    requires |fields| >= 1
    requires AsciiFields(fields)
    ensures DecodeForm(UrlEncode(fields)) == fields
  {
    var parts := EncodePairs(fields);
    forall i | 0 <= i < |parts| ensures '&' !in parts[i] {
      assert parts[i] == QuotePlus(fields[i].0) + "=" + QuotePlus(fields[i].1);
    }
    SplitJoin(parts, '&');
    forall i | 0 <= i < |parts| ensures DecodePair(parts[i]) == fields[i] {
      assert parts[i] == QuotePlus(fields[i].0) + ['='] + QuotePlus(fields[i].1);
      SplitFirstAt(QuotePlus(fields[i].0), '=', QuotePlus(fields[i].1));
      UnquoteQuote(fields[i].0);
      UnquoteQuote(fields[i].1);
    }
  }
}
