/**
 * URL handling of the scraper: the scheme that `urlparse` extracts, a simplified
 * relative-reference resolver standing for `urljoin`, and `normalize_url`.
 */
module Urls {
  import opened Wrappers
  import opened Strings

  /** An absolute web URL in the sense of the scraper's prefix tests. */
  predicate IsHttpUrl(s: string)
  {
    StartsWith(s, "http://") || StartsWith(s, "https://")
  }

  predicate IsAsciiLetter(c: char)
  {
    'a' <= c <= 'z' || 'A' <= c <= 'Z'
  }

  /** Characters allowed in a URL scheme (letters, digits, `+`, `-`, `.`). */
  predicate IsSchemeChar(c: char)
  {
    IsAsciiLetter(c) || '0' <= c <= '9' || c == '+' || c == '-' || c == '.'
  }

  /** The longest prefix of `s` holding no character of `stop`. */
  function TakeUntil(s: string, stop: set<char>): (r: string)
    ensures |r| <= |s| && r == s[..|r|]
    ensures forall i :: 0 <= i < |r| ==> r[i] !in stop
    ensures |r| < |s| ==> s[|r|] in stop
  {
    if s == [] || s[0] in stop then [] else [s[0]] + TakeUntil(s[1..], stop)
  }

  /** A prefix free of `stop` and followed by a `stop` character is what TakeUntil returns. */
  lemma TakeUntilSplit(s: string, stop: set<char>, k: nat)
    requires k < |s| && s[k] in stop
    requires forall i :: 0 <= i < k ==> s[i] !in stop
    ensures TakeUntil(s, stop) == s[..k]
  {
  }

  /**
   * The scheme `urlparse` reports: the text before the first `:`, lower-cased,
   * when it is non-empty, starts with a letter and holds only scheme characters;
   * otherwise the empty string.
   */
  function UrlScheme(url: string): (r: string)
    ensures r != "" ==> |r| < |url| && url[|r|] == ':' && r == Lower(url[..|r|])
    ensures r != "" ==> IsAsciiLetter(url[0]) && forall i :: 0 <= i < |r| ==> IsSchemeChar(url[i])
  {
    var head := TakeUntil(url, {':'});
    if 0 < |head| < |url| && IsAsciiLetter(url[0]) && forall i :: 0 <= i < |head| ==> IsSchemeChar(head[i])
    then Lower(head)
    else ""
  }

  /**
   * Conversely, a first `:` at position `k`, preceded by a letter and then only
   * scheme characters, makes the text before it the scheme.
   */
  lemma SchemeBeforeFirstColon(url: string, k: nat)
    requires 0 < k < |url| && url[k] == ':' && IsAsciiLetter(url[0])
    requires forall i :: 0 <= i < k ==> url[i] != ':' && IsSchemeChar(url[i])
    ensures UrlScheme(url) == Lower(url[..k])
  {
  }

  /** Every `http://` and `https://` URL has the scheme its prefix names. */
  lemma HttpScheme(url: string)
    requires IsHttpUrl(url)
    ensures StartsWith(url, "http://") ==> UrlScheme(url) == "http"
    ensures StartsWith(url, "https://") ==> UrlScheme(url) == "https"
  {
    if StartsWith(url, "http://") {
      StartsWithTrans(url, "http://", "http:");
      SchemeOfPrefix(url, "http");
    } else {
      StartsWithTrans(url, "https://", "https:");
      SchemeOfPrefix(url, "https");
    }
  }

  /** A URL that starts with a lower-case word and `:` has that word as its scheme. */
  lemma SchemeOfPrefix(url: string, name: string)
    requires name != "" && forall i :: 0 <= i < |name| ==> 'a' <= name[i] <= 'z'
    requires StartsWith(url, name + ":")
    ensures UrlScheme(url) == name
  {
    assert url[..|name| + 1] == name + ":";
    assert forall i :: 0 <= i <= |name| ==> url[i] == (name + ":")[i];
    TakeUntilSplit(url, {':'}, |name|);
    assert url[..|name|] == name;
  }

  /** The components of a URL that relative resolution reads. */
  datatype UrlParts = UrlParts(scheme: string, hasAuthority: bool, authority: string, path: string, query: string)

  /** Splits a URL into scheme, authority (after `//`), path and query (with its `?`); the fragment is dropped. */
  function Split(url: string): UrlParts
  {
    var scheme := UrlScheme(url);
    SplitHierarchy(scheme, if scheme != "" then url[|scheme| + 1..] else url)
  }

  /** The authority, path and query of what follows the scheme. */
  function SplitHierarchy(scheme: string, rest: string): (b: UrlParts)
    ensures b.scheme == scheme && b.hasAuthority == StartsWith(rest, "//")
  {
    if StartsWith(rest, "//") then
      var authority := TakeUntil(rest[2..], {'/', '?', '#'});
      SplitPathQuery(scheme, true, authority, rest[2 + |authority|..])
    else
      SplitPathQuery(scheme, false, "", rest)
  }

  function SplitPathQuery(scheme: string, hasAuthority: bool, authority: string, tail: string): (b: UrlParts)
    ensures b.scheme == scheme && b.hasAuthority == hasAuthority && b.authority == authority
  {
    var path := TakeUntil(tail, {'?', '#'});
    UrlParts(scheme, hasAuthority, authority, path, TakeUntil(tail[|path|..], {'#'}))
  }

  /** `scheme:` and `//authority`, each when present. */
  function SchemeAndAuthority(b: UrlParts): string
  {
    (if b.scheme != "" then b.scheme + ":" else "") + (if b.hasAuthority then "//" + b.authority else "")
  }

  /** Everything of a path up to and including its last `/`. */
  function Directory(path: string): string
  {
    if path == [] then [] else if path[|path| - 1] == '/' then path else Directory(path[..|path| - 1])
  }

  /** Merging a relative path with the base path, after section 5.2.3 of RFC 3986. */
  function Merge(b: UrlParts, ref: string): string
  {
    if b.hasAuthority && b.path == "" then "/" + ref else Directory(b.path) + ref
  }

  /**
   * `urljoin(base, ref)`: resolution of the reference `ref` against `base` after
   * section 5.2.2 of RFC 3986, without the removal of `.` and `..` segments.
   */
  function UrlJoin(base: string, ref: string): (r: string)
    ensures base == "" ==> r == ref
    ensures UrlScheme(ref) != "" ==> r == ref
    ensures |ref| <= |r|
  {
    if base == "" then ref
    else if ref == "" then base
    else if UrlScheme(ref) != "" then ref
    else Resolve(Split(base), ref)
  }

  /** The target of a non-empty reference without a scheme, from the parts of its base. */
  function Resolve(b: UrlParts, ref: string): (r: string)
    ensures |ref| <= |r|
  {
    if StartsWith(ref, "//") then (if b.scheme != "" then b.scheme + ":" else "") + ref
    else if StartsWith(ref, "/") then SchemeAndAuthority(b) + ref
    else if StartsWith(ref, "?") then SchemeAndAuthority(b) + b.path + ref
    else if StartsWith(ref, "#") then SchemeAndAuthority(b) + b.path + b.query + ref
    else SchemeAndAuthority(b) + Merge(b, ref)
  }

  /** A reference that does not start with `//` keeps the base's scheme and authority. */
  lemma {:induction false} ResolveKeepsAuthority(b: UrlParts, ref: string)
    requires !StartsWith(ref, "//")
    ensures StartsWith(Resolve(b, ref), SchemeAndAuthority(b))
  {
    var p := SchemeAndAuthority(b);
    var rest := if StartsWith(ref, "/") then ref
                else if StartsWith(ref, "?") then b.path + ref
                else if StartsWith(ref, "#") then b.path + b.query + ref
                else Merge(b, ref);
    assert Resolve(b, ref) == p + rest;
    assert StartsWith(p, p);
    StartsWithAppend(p, rest, p);
  }

  /** A URL whose scheme is followed by `//` has an authority. */
  lemma SchemeAuthorityParts(url: string, scheme: string)
    requires scheme != "" && UrlScheme(url) == scheme
    requires StartsWith(url[|scheme| + 1..], "//")
    ensures Split(url).scheme == scheme && Split(url).hasAuthority
    ensures SchemeAndAuthority(Split(url)) == scheme + "://" + Split(url).authority
  {
    HierarchyAuthority(scheme, url[|scheme| + 1..]);
  }

  /** What follows a scheme and starts with `//` is an authority. */
  lemma HierarchyAuthority(scheme: string, rest: string)
    requires scheme != "" && StartsWith(rest, "//")
    ensures SplitHierarchy(scheme, rest).hasAuthority
    ensures SchemeAndAuthority(SplitHierarchy(scheme, rest)) ==
              scheme + "://" + SplitHierarchy(scheme, rest).authority
  {
    var a := SplitHierarchy(scheme, rest).authority;
    assert (scheme + ":") + ("//" + a) == scheme + "://" + a;
  }

  /** The parts of an `http(s)://` URL: its own scheme, and an authority. */
  lemma HttpParts(base: string)
    requires IsHttpUrl(base)
    ensures Split(base).scheme == UrlScheme(base)
    ensures Split(base).hasAuthority
    ensures StartsWith(base, "http://") ==> StartsWith(SchemeAndAuthority(Split(base)), "http://")
    ensures StartsWith(base, "https://") ==> StartsWith(SchemeAndAuthority(Split(base)), "https://")
  {
    HttpScheme(base);
    if StartsWith(base, "http://") {
      PartsAfterScheme(base, "http");
    } else {
      PartsAfterScheme(base, "https");
    }
  }

  /** A URL starting `scheme://` keeps that prefix in its scheme and authority. */
  lemma PartsAfterScheme(url: string, scheme: string)
    requires scheme != "" && UrlScheme(url) == scheme && StartsWith(url, scheme + "://")
    ensures Split(url).scheme == scheme && Split(url).hasAuthority
    ensures StartsWith(SchemeAndAuthority(Split(url)), scheme + "://")
  {
    var prefix := scheme + "://";
    assert prefix == (scheme + ":") + "//";
    StartsWithDrop(url, scheme + ":", "//");
    SchemeAuthorityParts(url, scheme);
    assert StartsWith(prefix, prefix);
    StartsWithAppend(prefix, Split(url).authority, prefix);
  }

  /**
   * Against an `http(s)://` base, a reference without a scheme resolves to an
   * absolute URL with the base's scheme, and one that does not start with `//`
   * keeps the base's authority.
   */
  lemma JoinKeepsBase(base: string, ref: string)
    requires IsHttpUrl(base) && UrlScheme(ref) == ""
    ensures StartsWith(base, "http://") ==> StartsWith(UrlJoin(base, ref), "http://")
    ensures StartsWith(base, "https://") ==> StartsWith(UrlJoin(base, ref), "https://")
    ensures ref != "" && !StartsWith(ref, "//") ==>
              StartsWith(UrlJoin(base, ref), SchemeAndAuthority(Split(base)))
  {
    if ref == "" {
    } else if StartsWith(ref, "//") {
      JoinProtocolRelative(base, ref);
    } else {
      HttpParts(base);
      var b := Split(base);
      var r := Resolve(b, ref);
      assert UrlJoin(base, ref) == r;
      ResolveKeepsAuthority(b, ref);
      if StartsWith(base, "http://") {
        StartsWithTrans(r, SchemeAndAuthority(b), "http://");
      } else {
        StartsWithTrans(r, SchemeAndAuthority(b), "https://");
      }
    }
  }

  /** Against an `http(s)://` base, a `//` reference takes the base's scheme. */
  lemma JoinProtocolRelative(base: string, ref: string)
    requires IsHttpUrl(base) && UrlScheme(ref) == "" && StartsWith(ref, "//")
    ensures StartsWith(base, "http://") ==> StartsWith(UrlJoin(base, ref), "http://")
    ensures StartsWith(base, "https://") ==> StartsWith(UrlJoin(base, ref), "https://")
  {
    HttpParts(base);
    HttpScheme(base);
    JoinOfProtocolRelative(base, ref);
    if StartsWith(base, "http://") {
      StartsWithConcat("http:", ref, "//");
      assert "http:" + "//" == "http://";
    } else {
      StartsWithConcat("https:", ref, "//");
      assert "https:" + "//" == "https://";
    }
  }

  /** A `//` reference joined to a base with a scheme is that scheme, `:` and the reference. */
  lemma JoinOfProtocolRelative(base: string, ref: string)
    requires base != "" && UrlScheme(ref) == "" && StartsWith(ref, "//") && Split(base).scheme != ""
    ensures UrlJoin(base, ref) == Split(base).scheme + ":" + ref
  {
  }

  /** A protocol-relative URL is not an `http(s)://` URL. */
  lemma ProtocolRelativeIsNotHttp(url: string)
    requires StartsWith(url, "//")
    ensures !IsHttpUrl(url)
  {
    assert url[0] == url[..2][0];
  }

  /**
   * `normalize_url(url, base_url)`: no URL for an empty one, the base's scheme
   * for a protocol-relative one, an `http(s)://` URL unchanged, and relative
   * resolution against the base for anything else.
   */
  function NormalizeUrl(url: string, base: string): (r: Option<string>)
    ensures r.None? <==> url == ""
    ensures r.Some? ==> |url| <= |r.value|
    ensures StartsWith(url, "//") ==> r == Some(UrlScheme(base) + ":" + url)
    ensures IsHttpUrl(url) ==> r == Some(url)
    ensures url != "" && !StartsWith(url, "//") && !IsHttpUrl(url) ==> r == Some(UrlJoin(base, url))
  {
    if url == "" then None
    else if StartsWith(url, "//") then ProtocolRelativeIsNotHttp(url); Some(UrlScheme(base) + ":" + url)
    else if !IsHttpUrl(url) then Some(UrlJoin(base, url))
    else Some(url)
  }

  /** A protocol-relative URL takes the scheme of an `http(s)://` base and is otherwise unchanged. */
  lemma NormalizeProtocolRelative(url: string, base: string)
    requires StartsWith(url, "//") && IsHttpUrl(base)
    ensures StartsWith(base, "http://") ==> NormalizeUrl(url, base) == Some("http:" + url)
    ensures StartsWith(base, "https://") ==> NormalizeUrl(url, base) == Some("https:" + url)
  {
    HttpScheme(base);
    if StartsWith(base, "http://") {
      assert "http" + ":" + url == "http:" + url;
    } else {
      assert "https" + ":" + url == "https:" + url;
    }
  }

  /**
   * Against an `http(s)://` base (the only kind the scraper passes), normalising
   * twice is normalising once, for every URL.
   */
  lemma NormalizeIdempotent(url: string, base: string)
    requires IsHttpUrl(base)
    ensures NormalizeUrl(url, base).Some? ==>
              NormalizeUrl(NormalizeUrl(url, base).value, base) == NormalizeUrl(url, base)
  {
    if url == "" || IsHttpUrl(url) {
    } else if StartsWith(url, "//") {
      ProtocolRelativeBecomesHttp(url, base);
    } else if UrlScheme(url) == "" {
      JoinKeepsBase(base, url);
    }
  }

  /** Against an `http(s)://` base, a protocol-relative URL normalises to an `http(s)://` URL. */
  lemma ProtocolRelativeBecomesHttp(url: string, base: string)
    requires StartsWith(url, "//") && IsHttpUrl(base)
    ensures IsHttpUrl(NormalizeUrl(url, base).value)
  {
    NormalizeProtocolRelative(url, base);
    if StartsWith(base, "http://") {
      StartsWithConcat("http:", url, "//");
      assert "http:" + "//" == "http://";
    } else {
      StartsWithConcat("https:", url, "//");
      assert "https:" + "//" == "https://";
    }
  }
}
