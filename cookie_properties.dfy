/** What the cookie store promises: the shape of each saved line, what the save filter keeps,
    the save/load round trip, the expiry normalisation and the session-cookie lookup. */
module CookieProperties {
  import opened Wrappers
  import opened Text
  import opened Cookies
  import Urls

  // ---- saved lines ----

  /** No column of the cookie can break its line: no tab, no newline. */
  predicate Flat(c: Cookie) {
    && '\t' !in c.domain && '\t' !in c.path && '\t' !in c.name
    && '\n' !in c.domain && '\n' !in c.path && '\n' !in c.name
    && (c.value.Some? ==> '\t' !in c.value.value && '\n' !in c.value.value)
  }

  lemma ColumnsTabFree(c: Cookie)
    requires Flat(c)
    ensures forall i :: 0 <= i < |Columns(c)| ==> '\t' !in Columns(c)[i]
  {
    var e := ExpiresColumn(c.expires);
    assert forall k :: 0 <= k < |e| ==> e[k] != '\t';
  }

  /** A saved line is exactly seven tab-separated columns: domain, wildcard flag, path,
      secure flag, expiry, name and value, with the flags, the expiry sentinel and the
      valueless-cookie swap as `save` writes them. */
  lemma SavedLineColumns(c: Cookie)
    requires Flat(c)
    ensures var f := Split(FormatLine(c), '\t');
      && |f| == 7
      && f[0] == c.domain
      && (f[1] == "TRUE" || f[1] == "FALSE") && (f[1] == "TRUE" <==> StartsWith(c.domain, "."))
      && f[2] == c.path
      && (f[3] == "TRUE" || f[3] == "FALSE") && (f[3] == "TRUE" <==> c.secure)
      && (c.expires.None? ==> f[4] == "0")
      && (c.expires.Some? ==> ParseInt(f[4]) == c.expires)
      && (c.value.None? ==> f[5] == "" && f[6] == c.name)
      && (c.value.Some? ==> f[5] == c.name && f[6] == c.value.value)
  {
    ColumnsTabFree(c);
    SplitJoin(Columns(c), '\t');
    if c.expires.Some? {
      ParseIntToString(c.expires.value);
    }
  }

  // ---- the save filter ----

  /** A cookie is kept exactly when it is in the jar and passes the filters. */
  lemma {:induction false} KeptMembers(jar: seq<Cookie>, c: Cookie, ignoreDiscard: bool, ignoreExpires: bool, now: int)
    ensures c in Kept(jar, ignoreDiscard, ignoreExpires, now) <==> c in jar && Survives(c, ignoreDiscard, ignoreExpires, now)
  {
    if jar != [] {
      var init := jar[..|jar| - 1];
      KeptMembers(init, c, ignoreDiscard, ignoreExpires, now);
      assert jar == init + [jar[|jar| - 1]];
    }
  }

  /** Filtering commutes with concatenation, so the kept cookies keep the jar's order. */
  lemma {:induction false} KeptConcat(a: seq<Cookie>, b: seq<Cookie>, ignoreDiscard: bool, ignoreExpires: bool, now: int)
    ensures Kept(a + b, ignoreDiscard, ignoreExpires, now)
         == Kept(a, ignoreDiscard, ignoreExpires, now) + Kept(b, ignoreDiscard, ignoreExpires, now)
    decreases |b|
  {
    if b == [] {
      assert a + b == a;
    } else {
      var init := b[..|b| - 1];
      assert (a + b)[..|a + b| - 1] == a + init;
      KeptConcat(a, init, ignoreDiscard, ignoreExpires, now);
    }
  }

  /** When both filters are ignored, every cookie is saved. */
  lemma {:induction false} KeptAll(jar: seq<Cookie>, now: int)
    ensures Kept(jar, true, true, now) == jar
  {
    if jar != [] {
      KeptAll(jar[..|jar| - 1], now);
      assert jar[..|jar| - 1] + [jar[|jar| - 1]] == jar;
    }
  }

  // ---- load after save ----

  /** The columns that let a line be read back as the cookie it came from: flat, and not a
      valued cookie with an empty name (the format cannot tell that one from a valueless one). */
  predicate Persistable(c: Cookie) {
    Flat(c) && (c.name == "" ==> c.value.None?)
  }

  /** A cookie as a load reads it back: a missing expiry as the sentinel 0, not discarded. */
  function Reread(c: Cookie): Cookie {
    c.(expires := if c.expires.None? then Some(0) else c.expires, discard := false)
  }

  /** A cookie as it stands in the jar after the load's normalisation. */
  function Restored(c: Cookie): Cookie {
    c.(expires := if c.expires == Some(0) then None else c.expires, discard := false)
  }

  lemma ParseFormattedLine(c: Cookie)
    requires Persistable(c)
    ensures ParseLine(FormatLine(c)) == Some(Reread(c))
  {
    SavedLineColumns(c);
    var f := Split(FormatLine(c), '\t');
    if c.expires.None? {
      assert ParseInt("0") == Some(0) by {
        assert AllDigits("0");
        assert "0"[..0] == "";
      }
    }
    assert f[4] != "";
  }

  lemma {:induction false} ParseFormattedLines(cs: seq<Cookie>, lineNumber: nat, now: int)
    requires forall i :: 0 <= i < |cs| ==> Persistable(cs[i])
    ensures ParseBody(FormatLines(cs), lineNumber, true, true, now)
         == Parsed(seq(|cs|, i requires 0 <= i < |cs| => Reread(cs[i])), None)
  {
    if cs != [] {
      ParseFormattedLine(cs[0]);
      assert FormatLines(cs)[1..] == FormatLines(cs[1..]);
      ParseFormattedLines(cs[1..], lineNumber + 1, now);
    }
  }

  /** Loading a saved file (with both filters ignored, as `load_cookiejar` does by default)
      reads back the saved cookies in order; after normalisation each one equals the
      original, with a missing expiry still missing, and is no longer marked discard. */
  lemma SaveLoadRoundTrip(jar: seq<Cookie>, ignoreDiscard: bool, ignoreExpires: bool, saveNow: int, loadNow: int)
    requires forall i :: 0 <= i < |jar| ==> Persistable(jar[i])
    ensures var kept := Kept(jar, ignoreDiscard, ignoreExpires, saveNow);
      var p := ParseFile(SavedLines(jar, ignoreDiscard, ignoreExpires, saveNow), true, true, loadNow);
      && p.error.None?
      && Normalised(p.cookies) == seq(|kept|, i requires 0 <= i < |kept| => Restored(kept[i]))
  {
    var kept := Kept(jar, ignoreDiscard, ignoreExpires, saveNow);
    forall i | 0 <= i < |kept| ensures Persistable(kept[i]) {
      KeptMembers(jar, kept[i], ignoreDiscard, ignoreExpires, saveNow);
    }
    var text := SavedLines(jar, ignoreDiscard, ignoreExpires, saveNow);
    assert text[1..] == FormatLines(kept);
    ParseFormattedLines(kept, 2, loadNow);
  }

  /** A valued cookie with an empty name is written exactly like the valueless cookie named
      after its value, so a load cannot give it back. */
  lemma EmptyNameCollides(c: Cookie)
    requires c.name == "" && c.value.Some?
    ensures FormatLine(c) == FormatLine(c.(name := c.value.value, value := None))
  {
  }

  /** A load that does not ignore expiry (at any time from the epoch on) drops every saved
      cookie that had no expiry: its sentinel 0 reads back as an expiry in the past. */
  lemma ExpiryCheckedLoadDropsSessionCookies(c: Cookie, ignoreDiscard: bool, saveNow: int, loadNow: int)
    requires Persistable(c) && c.expires.None?
    requires loadNow >= 0
    ensures ParseFile(SavedLines([c], true, true, saveNow), ignoreDiscard, false, loadNow) == Parsed([], None)
  {
    var text := SavedLines([c], true, true, saveNow);
    assert Kept([c], true, true, saveNow) == [c];
    var body := text[1..];
    assert body == [FormatLine(c)];
    ParseFormattedLine(c);
    assert !Survives(Reread(c), ignoreDiscard, false, loadNow);
    assert body[1..] == [];
    assert ParseBody(body[1..], 3, ignoreDiscard, false, loadNow) == Parsed([], None);
    assert ParseBody(body, 2, ignoreDiscard, false, loadNow) == Parsed([], None);
  }

  // ---- the session cookie ----

  /** A session cookie for `host` that comes after every other cookie in the jar's
      iteration order is the one the lookup returns. */
  lemma LastMatchWins(jar: seq<Cookie>, c: Cookie, host: string)
    requires IsSessionCookie(c, host)
    ensures SessionCookieFor(jar + [c], host) == Success(c)
  {
  }

  lemma SpNetloc()
    ensures Urls.Netloc("https://sp.example.org/secure") == "sp.example.org"
  {
    assert "https" + "://" + "sp.example.org" + "/secure" == "https://sp.example.org/secure";
    Urls.NetlocOfUrl("https", "sp.example.org", "/secure");
  }

  lemma OtherNetloc()
    ensures Urls.Netloc("https://other.example.org/") == "other.example.org"
  {
    assert "https" + "://" + "other.example.org" + "/" == "https://other.example.org/";
    Urls.NetlocOfUrl("https", "other.example.org", "/");
  }

  /** A session cookie set by `sp.example.org` is found for a URL on that host and not for
      a URL on another host. */
  lemma SessionCookieLookupExample(value: string)
    ensures var c := Cookie("sp.example.org", "/", true, None, "_shibsession_x", Some(value), false);
      && SessionCookieFor([c], Urls.Netloc("https://sp.example.org/secure")) == Success(c)
      && SessionCookieFor([c], Urls.Netloc("https://other.example.org/")).Failure?
  {
    SpNetloc();
    OtherNetloc();
    assert "_shibsession_x"[..|SessionPrefix|] == SessionPrefix;
    assert "sp.example.org" != "other.example.org" by {
      assert "sp.example.org"[0] != "other.example.org"[0];
    }
  }
}
