/** Two string codecs: the route-id encoding of the proxy's admin paths (edge-ingress/src/caddy.rs,
    `encode_url_path`) and the outbound URL parser (edge-js-runtime/src/url_parse.rs). */
module Url {
  import opened Common
  import opened Text

  // ---------------------------------------------------------------- encoding route ids

  /** Every occurrence of `c` replaced by `code`. */
  function Replace(s: string, c: char, code: string): string {
    if s == "" then "" else (if s[0] == c then code else [s[0]]) + Replace(s[1..], c, code)
  }

  function EncodeUrlPath(id: string): string {
    Replace(Replace(Replace(Replace(Replace(id, '%', "%25"), ':', "%3A"), '/', "%2F"), '#', "%23"), '?', "%3F")
  }

  function EncodeChar(c: char): string {
    match c
    case '%' => "%25"
    case ':' => "%3A"
    case '/' => "%2F"
    case '#' => "%23"
    case '?' => "%3F"
    case _ => [c]
  }

  function EncodeEach(s: string): string {
    if s == "" then "" else EncodeChar(s[0]) + EncodeEach(s[1..])
  }

  function HexDigit(c: char): Option<int> {
    if '0' <= c <= '9' then Some(c as int - '0' as int)
    else if 'A' <= c <= 'F' then Some(c as int - 'A' as int + 10)
    else if 'a' <= c <= 'f' then Some(c as int - 'a' as int + 10)
    else None
  }

  /** Percent-decoding as in section 2.1 of RFC 3986; nothing for a malformed triplet. */
  function Decode(s: string): Option<string> {
    if s == "" then Some("")
    else if s[0] != '%' then
      var rest := Decode(s[1..]);
      if rest == None then None else Some([s[0]] + rest.value)
    else if |s| < 3 || HexDigit(s[1]) == None || HexDigit(s[2]) == None then None
    else
      var rest := Decode(s[3..]);
      if rest == None then None else Some([(HexDigit(s[1]).value * 16 + HexDigit(s[2]).value) as char] + rest.value)
  }

  lemma {:induction false} ReplaceSplits(s: string, t: string, c: char, code: string)
    ensures Replace(s + t, c, code) == Replace(s, c, code) + Replace(t, c, code)
  {
    if s == "" {
      assert s + t == t;
    } else {
      ReplaceSplits(s[1..], t, c, code);
      assert (s + t)[1..] == s[1..] + t && (s + t)[0] == s[0];
      var head, tail, more := if s[0] == c then code else [s[0]], Replace(s[1..], c, code), Replace(t, c, code);
      assert head + (tail + more) == (head + tail) + more;
    }
  }

  lemma {:induction false} ReplaceAbsent(s: string, c: char, code: string)
    requires c !in s
    ensures Replace(s, c, code) == s
  {
    if s != "" { ReplaceAbsent(s[1..], c, code); }
  }

  lemma ReplaceOne(x: char, c: char, code: string)
    ensures Replace([x], c, code) == if x == c then code else [x]
  {
    assert [x][1..] == "";
  }

  /** One replacement in the encoding of `x`, before or after the one that concerns `x`. */
  lemma Stage(e: string, x: char, c: char, code: string)
    requires e == [x] || (x != c && c !in e)
    ensures Replace(e, c, code) == if x == c then code else e
  {
    if e == [x] { ReplaceOne(x, c, code); } else { ReplaceAbsent(e, c, code); }
  }

  lemma FirstStages(x: char)
    ensures Replace(Replace(Replace([x], '%', "%25"), ':', "%3A"), '/', "%2F") == if x in {'%', ':', '/'}
        then EncodeChar(x) else [x]
  {
    Stage([x], x, '%', "%25");
    var e := if x == '%' then "%25" else [x];
    Stage(e, x, ':', "%3A");
    e := if x == ':' then "%3A" else e;
    Stage(e, x, '/', "%2F");
  }

  lemma EncodeOneChar(x: char)
    ensures EncodeUrlPath([x]) == EncodeChar(x)
  {
    FirstStages(x);
    var e := if x in {'%', ':', '/'} then EncodeChar(x) else [x];
    Stage(e, x, '#', "%23");
    e := if x == '#' then "%23" else e;
    Stage(e, x, '?', "%3F");
  }

  lemma EncodeSplits(s: string, t: string)
    ensures EncodeUrlPath(s + t) == EncodeUrlPath(s) + EncodeUrlPath(t)
  {
    ReplaceSplits(s, t, '%', "%25");
    var a, b := Replace(s, '%', "%25"), Replace(t, '%', "%25");
    ReplaceSplits(a, b, ':', "%3A");
    a, b := Replace(a, ':', "%3A"), Replace(b, ':', "%3A");
    ReplaceSplits(a, b, '/', "%2F");
    a, b := Replace(a, '/', "%2F"), Replace(b, '/', "%2F");
    ReplaceSplits(a, b, '#', "%23");
    a, b := Replace(a, '#', "%23"), Replace(b, '#', "%23");
    ReplaceSplits(a, b, '?', "%3F");
  }

  /** The five replacements in sequence encode every character once. */
  lemma {:induction false} EncodesPerCharacter(s: string)
    ensures EncodeUrlPath(s) == EncodeEach(s)
  {
    if s != "" {
      EncodeSplits([s[0]], s[1..]);
      assert [s[0]] + s[1..] == s;
      EncodeOneChar(s[0]);
      EncodesPerCharacter(s[1..]);
    }
  }

  lemma DecodeTriplet(hi: char, lo: char, rest: string)
    requires HexDigit(hi).Some? && HexDigit(lo).Some? && Decode(rest).Some?
    ensures Decode(['%', hi, lo] + rest) ==
        Some([(HexDigit(hi).value * 16 + HexDigit(lo).value) as char] + Decode(rest).value)
  {
    var s := ['%', hi, lo] + rest;
    assert s[0] == '%' && s[1] == hi && s[2] == lo && s[3..] == rest;
  }

  lemma DecodeOneChar(c: char, rest: string)
    requires Decode(rest).Some?
    ensures Decode(EncodeChar(c) + rest) == Some([c] + Decode(rest).value)
  {
    match c
    case '%' => DecodeTriplet('2', '5', rest);
    case ':' => DecodeTriplet('3', 'A', rest);
    case '/' => DecodeTriplet('2', 'F', rest);
    case '#' => DecodeTriplet('2', '3', rest);
    case '?' => DecodeTriplet('3', 'F', rest);
    case _ => assert ([c] + rest)[1..] == rest;
  }

  lemma {:induction false} DecodeInvertsEach(s: string)
    ensures Decode(EncodeEach(s)) == Some(s)
  {
    if s != "" {
      DecodeInvertsEach(s[1..]);
      DecodeOneChar(s[0], EncodeEach(s[1..]));
      assert [s[0]] + s[1..] == s;
    }
  }

  /** Round trip: a percent-decoder gives back every route id, so different ids have different paths. */
  lemma DecodeInvertsEncode(id: string, other: string)
    ensures Decode(EncodeUrlPath(id)) == Some(id)
    ensures EncodeUrlPath(id) == EncodeUrlPath(other) ==> id == other
  {
    EncodesPerCharacter(id);
    EncodesPerCharacter(other);
    DecodeInvertsEach(id);
    DecodeInvertsEach(other);
  }

  /** An encoded id is one path segment. */
  lemma {:induction false} EncodedIsOneSegment(id: string, c: char)
    requires c in {':', '/', '#', '?'}
    ensures c !in EncodeUrlPath(id)
  {
    EncodesPerCharacter(id);
    if id != "" {
      EncodesPerCharacter(id[1..]);
      EncodedIsOneSegment(id[1..], c);
    }
  }

  // ---------------------------------------------------------------- parsing outbound URLs

  datatype Parsed = Ok(scheme: string, authority: string, path: string) | Err

  function LowerChar(c: char): char {
    if 'A' <= c <= 'Z' then (c as int + 32) as char else c
  }

  function Lower(s: string): string { seq(|s|, i requires 0 <= i < |s| => LowerChar(s[i])) }

  predicate SeparatorAt(s: string, i: nat) { i + 3 <= |s| && s[i] == ':' && s[i + 1] == '/' && s[i + 2] == '/' }

  /** Position of the first "://". */
  function FindSeparator(s: string): (r: Option<nat>)
    ensures r.Some? ==> SeparatorAt(s, r.value) && forall i :: 0 <= i < r.value ==> !SeparatorAt(s, i)
    ensures r == None ==> forall i: nat :: !SeparatorAt(s, i)
  {
    if |s| < 3 then None
    else if SeparatorAt(s, 0) then Some(0)
    else
      var r := FindSeparator(s[1..]);
      assert forall i: nat :: i > 0 ==> (SeparatorAt(s, i) <==> SeparatorAt(s[1..], i - 1));
      if r == None then None else Some(r.value + 1)
  }

  /** The part of `s` before the first `c`. */
  function Before(s: string, c: char): string { s[..IndexOf(s, c)] }

  /** The part of `s` after the first `c`, or all of it. */
  function AfterFirst(s: string, c: char): string {
    var i := IndexOf(s, c);
    if i < |s| then s[i + 1..] else s
  }

  function ParseAuthority(scheme: string, rest: string): (r: Parsed)
    ensures r.Ok? ==> |r.authority| + |r.path| <= |rest| + 1
  {
    var slash := IndexOf(rest, '/');
    var authority := rest[..slash];
    var path := if slash < |rest| then rest[slash..] else "/";
    if authority == "" then Err
    else
      var host := AfterFirst(authority, '@');
      if host == "" then Err else Ok(scheme, Before(host, '?'), path)
  }

  function ParseFetchUrl(url: string): Parsed {
    if url == "" then Err
    else
      var at := FindSeparator(url);
      var scheme := if at.Some? then Lower(url[..at.value]) else "https";
      var rest := if at.Some? then url[at.value + 3..] else url;
      if rest == "" then Err else ParseAuthority(scheme, rest)
  }

  /** Lower-casing changes the letters A to Z, each to its small letter, and nothing else. */
  lemma LowerIs(s: string, i: nat)
    requires i < |s|
    ensures |Lower(s)| == |s|
    ensures 'A' <= s[i] <= 'Z' ==>
        'a' <= Lower(s)[i] <= 'z' && Lower(s)[i] as int - 'a' as int == s[i] as int - 'A' as int
    ensures !('A' <= s[i] <= 'Z') ==> Lower(s)[i] == s[i]
  {
  }

  /** `Before` and `AfterFirst` are the two sides of the first `c`; without one, both are everything. */
  lemma SidesOfFirst(s: string, c: char)
    ensures c !in Before(s, c)
    ensures c in s ==> s == Before(s, c) + [c] + AfterFirst(s, c)
    ensures c !in s ==> Before(s, c) == s == AfterFirst(s, c)
  {
    if c !in s { IndexOfIs(s, c, |s|); }
  }

  /** A host with optional port as the parser expects it; bracketed addresses are allowed. */
  predicate WellFormedHost(host: string) { host != "" && '/' !in host && '@' !in host && '?' !in host }

  /** Empty, or it starts at the root; a query belongs to it. */
  predicate WellFormedPath(path: string) { path == "" || path[0] == '/' }

  predicate WellFormedUserinfo(userinfo: string) { '/' !in userinfo && '@' !in userinfo }

  function OrRoot(path: string): string { if path == "" then "/" else path }

  lemma SplitAuthority(scheme: string, authority: string, path: string)
    requires authority != "" && '/' !in authority && WellFormedPath(path)
    ensures ParseAuthority(scheme, authority + path) ==
            if AfterFirst(authority, '@') == "" then Err
            else Ok(scheme, Before(AfterFirst(authority, '@'), '?'), OrRoot(path))
  {
    var rest := authority + path;
    assert rest[..|authority|] == authority && rest[|authority|..] == path;
    IndexOfIs(rest, '/', |authority|);
  }

  /** User information and host, as in section 3.2 of RFC 3986. */
  function Authority(userinfo: Option<string>, host: string): string {
    (if userinfo.Some? then userinfo.value + "@" else "") + host
  }

  lemma HostOf(userinfo: Option<string>, host: string)
    requires WellFormedHost(host) && (userinfo.Some? ==> WellFormedUserinfo(userinfo.value))
    ensures var authority := Authority(userinfo, host);
            authority != "" && '/' !in authority && AfterFirst(authority, '@') == host && Before(host, '?') == host
  {
    var authority := (if userinfo.Some? then userinfo.value + "@" else "") + host;
    IndexOfIs(host, '?', |host|);
    if userinfo.Some? {
      var u := userinfo.value;
      assert authority[..|u|] == u && authority[|u| + 1..] == host;
      IndexOfIs(authority, '@', |u|);
    } else {
      assert authority == host;
      IndexOfIs(authority, '@', |authority|);
    }
  }

  lemma FindsScheme(scheme: string, rest: string)
    requires ':' !in scheme
    ensures var url := scheme + "://" + rest;
            FindSeparator(url) == Some(|scheme|) && url[..|scheme|] == scheme && url[|scheme| + 3..] == rest
  {
    var url := scheme + "://" + rest;
    assert SeparatorAt(url, |scheme|) && forall i :: 0 <= i < |scheme| ==> url[i] == scheme[i];
  }

  /** Parsing any URL with a scheme: the authority ends at the first '/', the host begins after the first '@' and
      ends at the first '?'. */
  lemma ParseWithScheme(scheme: string, authority: string, path: string)
    requires ':' !in scheme && authority != "" && '/' !in authority && WellFormedPath(path)
    ensures ParseFetchUrl(scheme + "://" + authority + path) ==
            if AfterFirst(authority, '@') == "" then Err
            else Ok(Lower(scheme), Before(AfterFirst(authority, '@'), '?'), OrRoot(path))
  {
    assert scheme + "://" + authority + path == scheme + "://" + (authority + path);
    FindsScheme(scheme, authority + path);
    SplitAuthority(Lower(scheme), authority, path);
  }

  /** Round trip: composing a URL as in section 3 of RFC 3986 and parsing it gives back the lower-cased
      scheme, the host with its port, and the path with its query; user information is dropped. */
  lemma ParseInvertsCompose(scheme: string, userinfo: Option<string>, host: string, path: string)
    requires ':' !in scheme && WellFormedHost(host) && WellFormedPath(path)
    requires userinfo.Some? ==> WellFormedUserinfo(userinfo.value)
    ensures ParseFetchUrl(scheme + "://" + Authority(userinfo, host) + path) == Ok(Lower(scheme), host, OrRoot(path))
  {
    HostOf(userinfo, host);
    ParseWithScheme(scheme, Authority(userinfo, host), path);
  }

  /** Without a scheme the URL is taken as https exactly when "://" occurs nowhere in it, the query included. */
  lemma BareUrlParsesIff(host: string, path: string)
    requires WellFormedHost(host) && WellFormedPath(path)
    ensures ParseFetchUrl(host + path) == Ok("https", host, OrRoot(path)) <==> FindSeparator(host + path) == None
  {
    var url := host + path;
    if FindSeparator(url) == None {
      HostOf(None, host);
      assert "" + host == host;
      SplitAuthority("https", host, path);
    }
  }

  /** The failing family: with a URL in the query, as in "?u=http://b.io", everything before the inner "://" is taken
      for the scheme and the inner host for the host. */
  lemma UrlInQuery(host: string, before: string, target: string)
    requires ':' !in host && ':' !in before && WellFormedHost(target)
    ensures ParseFetchUrl(host + "/" + before + "://" + target) == Ok(Lower(host + "/" + before), target, "/")
  {
    var scheme := host + "/" + before;
    HostOf(None, target);
    assert Authority(None, target) == target;
    assert scheme + "://" + target + "" == scheme + "://" + target;
    ParseWithScheme(scheme, target, "");
  }

  /** A query straight after the host, for every query: it is dropped up to its first '/', where the path is taken to
      begin, unless an '@' comes before that; then the host is taken from behind the '@'. */
  lemma QueryWithoutPath(scheme: string, host: string, query: string)
    requires ':' !in scheme && WellFormedHost(host)
    ensures var q := Before(query, '/');
            var behind := AfterFirst(q, '@');
            ParseFetchUrl(scheme + "://" + host + "?" + query) ==
            if '@' !in q then Ok(Lower(scheme), host, OrRoot(query[|q|..]))
            else if behind == "" then Err
            else Ok(Lower(scheme), Before(behind, '?'), OrRoot(query[|q|..]))
  {
    var q := Before(query, '/');
    var authority, path := host + "?" + q, query[|q|..];
    assert query == q + path && '/' !in q;
    assert scheme + "://" + host + "?" + query == scheme + "://" + authority + path;
    ParseWithScheme(scheme, authority, path);
    if '@' !in q { HostBeforeQuery(host, q); } else { HostBehindAt(host, q); }
  }

  lemma HostBeforeQuery(host: string, q: string)
    requires WellFormedHost(host) && '@' !in q
    ensures var authority := host + "?" + q; AfterFirst(authority, '@') == authority && Before(authority, '?') == host
  {
    var authority := host + "?" + q;
    IndexOfIs(authority, '@', |authority|);
    assert authority[..|host|] == host;
    IndexOfIs(authority, '?', |host|);
  }

  lemma HostBehindAt(host: string, q: string)
    requires WellFormedHost(host) && '@' in q
    ensures AfterFirst(host + "?" + q, '@') == AfterFirst(q, '@')
  {
    var authority, i := host + "?" + q, IndexOf(q, '@');
    assert i < |q|;
    assert authority[..|host| + 1 + i] == host + "?" + q[..i];
    IndexOfIs(authority, '@', |host| + 1 + i);
    assert authority[|host| + 1 + i + 1..] == q[i + 1..];
  }

  /** The host of a parsed URL is empty exactly when the text after the user information starts with '?':
      the emptiness checks come before the query is cut off. */
  lemma EmptyHostIff(scheme: string, authority: string, path: string)
    requires ':' !in scheme && authority != "" && '/' !in authority && WellFormedPath(path)
    ensures var r := ParseFetchUrl(scheme + "://" + authority + path);
            var host := AfterFirst(authority, '@');
            (r.Err? <==> host == "") && (r.Ok? && r.authority == "" <==> host != "" && host[0] == '?')
  {
    ParseWithScheme(scheme, authority, path);
  }

  /** A URL that parses to an empty host. */
  lemma EmptyHostParses()
    ensures ParseFetchUrl("https://?q") == Ok("https", "", "/")
  {
    assert "https://?q" == "https" + "://" + "?q" + "";
    IndexOfIs("?q", '@', 2);
    IndexOfIs("?q", '?', 0);
    ParseWithScheme("https", "?q", "");
    assert Lower("https") == "https";
  }
}
