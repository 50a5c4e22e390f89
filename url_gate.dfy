/** The URL gate of the content script: which anchors are worth highlighting (`isValidLink`),
    the safety screen on a parsed URL (`isValidUrl`) and the canonical cache key built from it
    (`normalizeAndValidateUrl`). URL parsing itself belongs to the browser; its result is an
    input here, `None` standing for a parse that threw. */
module UrlGate {
  import opened Seqs
  import opened Text

  /** The fields of a parsed URL record that the gate reads. */
  datatype ParsedUrl = ParsedUrl(protocol: string, hostname: string, pathname: string, search: string, href: string)

  /** What `isValidLink` learns about an anchor: its `href` property, the DOM and style checks
      (connected, laid out, not hidden by display/visibility/opacity) and the parsed URL. */
  datatype LinkFacts = LinkFacts(
    href: string,
    isConnected: bool,
    hasOffsetParent: bool,
    hidden: bool,
    parsed: Option<ParsedUrl>)

  const MaxHrefLength := 2000

  /** Substrings whose presence anywhere in `href` rejects a URL. */
  const SuspiciousPatterns: seq<string> := ["<", ">", "\"", "'", "(", ")", "{", "}", "\\u"]

  /** Protocols that are never highlighted, whatever the allow-list says. */
  const SkipProtocols: seq<string> := ["mailto:", "tel:", "ftp:", "data:", "blob:", "about:"]

  predicate IsHostnameChar(c: char) {
    'a' <= c <= 'z' || 'A' <= c <= 'Z' || '0' <= c <= '9' || c == '.' || c == '-'
  }

  /** `/^[a-zA-Z0-9.-]+$/.test(hostname)`. */
  predicate HostnameMatches(h: string) {
    |h| > 0 && forall i :: 0 <= i < |h| ==> IsHostnameChar(h[i])
  }

  /** `isValidUrl`: no suspicious pattern in `href`, at most 2000 characters, a plain hostname. */
  predicate IsValidUrl(u: ParsedUrl) {
    && !(exists p | p in SuspiciousPatterns :: Contains(u.href, p))
    && |u.href| <= MaxHrefLength
    && HostnameMatches(u.hostname)
  }

  predicate IsSuspiciousChar(c: char) {
    c == '<' || c == '>' || c == '"' || c == '\'' || c == '(' || c == ')' || c == '{' || c == '}'
  }

  /** Character-level reading of the suspicious-pattern screen. */
  predicate SafeChars(h: string) {
    forall i :: 0 <= i < |h| ==> !IsSuspiciousChar(h[i]) && !(h[i] == '\\' && i + 1 < |h| && h[i + 1] == 'u')
  }

  lemma ContainsBackslashU(h: string)
    ensures Contains(h, "\\u") <==> exists i :: 0 <= i < |h| - 1 && h[i] == '\\' && h[i + 1] == 'u'
  {
    if Contains(h, "\\u") {
      var i :| 0 <= i <= |h| && OccursAt(h, "\\u", i);
      assert h[i..i + 2] == "\\u";
      assert h[i] == '\\' && h[i + 1] == 'u';
    }
    if exists i :: 0 <= i < |h| - 1 && h[i] == '\\' && h[i + 1] == 'u' {
      var i :| 0 <= i < |h| - 1 && h[i] == '\\' && h[i + 1] == 'u';
      assert h[i..i + 2] == "\\u";
      assert OccursAt(h, "\\u", i);
    }
  }

  lemma NoSuspiciousPattern(h: string)
    ensures (exists p | p in SuspiciousPatterns :: Contains(h, p)) <==> !SafeChars(h)
  {
    ContainsChar(h, '<'); ContainsChar(h, '>'); ContainsChar(h, '"'); ContainsChar(h, '\'');
    ContainsChar(h, '('); ContainsChar(h, ')'); ContainsChar(h, '{'); ContainsChar(h, '}');
    ContainsBackslashU(h);
    assert (exists p | p in SuspiciousPatterns :: Contains(h, p)) <==>
      Contains(h, "<") || Contains(h, ">") || Contains(h, "\"") || Contains(h, "'")
      || Contains(h, "(") || Contains(h, ")") || Contains(h, "{") || Contains(h, "}")
      || Contains(h, "\\u");
  }

  /** `isValidUrl` rejects exactly when `href` holds one of `<>"'(){}` or the two characters
      backslash-u, when it is longer than 2000 characters, or when the hostname is empty or has
      a character outside letters, digits, dot and hyphen. */
  lemma IsValidUrlIff(u: ParsedUrl)
    ensures IsValidUrl(u) <==>
      SafeChars(u.href) && |u.href| <= 2000 && |u.hostname| > 0
      && forall i :: 0 <= i < |u.hostname| ==> IsHostnameChar(u.hostname[i])
  {
    NoSuspiciousPattern(u.href);
  }

  // ---------------------------------------------------------------------------------------
  // Path normalisation

  predicate NoDoubleSlash(s: string) {
    forall i :: 0 <= i < |s| - 1 ==> !(s[i] == '/' && s[i + 1] == '/')
  }

  /** The characters of `s` other than `/`, in order. */
  function NonSlash(s: string): string
    decreases |s|
  {
    if s == [] then [] else (if s[0] == '/' then [] else [s[0]]) + NonSlash(s[1..])
  }

  /** `pathname.replace(/\/+/g, '/')`: every run of slashes becomes a single slash. */
  function CollapseSlashes(p: string): (r: string)
    ensures NoDoubleSlash(r)
    ensures NonSlash(r) == NonSlash(p)
    ensures |r| <= |p|
    ensures |p| > 0 ==> |r| > 0 && r[0] == p[0]
    ensures |p| > 0 && p[|p| - 1] == '/' ==> |r| > 0 && r[|r| - 1] == '/'
    decreases |p|
  {
    if |p| < 2 then p
    else if p[0] == '/' && p[1] == '/' then CollapseSlashes(p[1..])
    else
      var rest := CollapseSlashes(p[1..]);
      assert ([p[0]] + rest)[1..] == rest;
      [p[0]] + rest
  }

  lemma {:induction false} CollapseWithoutDoubleSlash(p: string)
    requires NoDoubleSlash(p)
    ensures CollapseSlashes(p) == p
    decreases |p|
  {
    if |p| >= 2 {
      CollapseWithoutDoubleSlash(p[1..]);
      assert [p[0]] + p[1..] == p;
    }
  }

  /** A doubled slash collapses as a single one would: with `CollapseWithoutDoubleSlash` this
      pins `CollapseSlashes` down to replacing each run of slashes by one slash. */
  lemma {:induction false} CollapseDoubleSlash(x: string, y: string)
    ensures CollapseSlashes(x + "//" + y) == CollapseSlashes(x + "/" + y)
    decreases |x|
  {
    if x == [] {
      CollapseLeadingDouble(y);
      assert x + "//" + y == "//" + y && x + "/" + y == "/" + y;
    } else {
      var p' := x[1..] + "//" + y;
      var q' := x[1..] + "/" + y;
      CollapseDoubleSlash(x[1..], y);
      ConsSplit(x, "//", y);
      ConsSplit(x, "/", y);
      CollapseCons(x[0], p', q');
    }
  }

  lemma ConsSplit(x: string, m: string, y: string)
    requires |x| > 0 && |m| > 0
    ensures x + m + y == [x[0]] + (x[1..] + m + y)
    ensures (x[1..] + m + y)[0] == if |x| > 1 then x[1] else m[0]
  {
  }

  lemma CollapseLeadingDouble(y: string)
    ensures CollapseSlashes("//" + y) == CollapseSlashes("/" + y)
  {
    assert ("//" + y)[1..] == "/" + y;
  }

  /** Collapsing after a first character depends only on the collapse of the rest and its
      first character. */
  lemma CollapseCons(c: char, s: string, t: string)
    requires |s| > 0 && |t| > 0 && s[0] == t[0] && CollapseSlashes(s) == CollapseSlashes(t)
    ensures CollapseSlashes([c] + s) == CollapseSlashes([c] + t)
  {
    assert ([c] + s)[1..] == s && ([c] + t)[1..] == t;
    assert ([c] + s)[1] == ([c] + t)[1];
  }

  /** `.replace(/\/$/, '')`: one trailing slash is dropped. */
  function StripTrailingSlash(p: string): string {
    if |p| > 0 && p[|p| - 1] == '/' then p[..|p| - 1] else p
  }

  /** The path part of the key: slashes collapsed, a trailing slash dropped, `/` if nothing is
      left. */
  function NormalizePath(p: string): (r: string)
    ensures r != []
    ensures NoDoubleSlash(r)
    ensures r == "/" || r[|r| - 1] != '/'
    ensures CollapseSlashes(p) == [] || CollapseSlashes(p) == "/" ==> r == "/"
    ensures CollapseSlashes(p) != [] && CollapseSlashes(p) != "/" ==>
      r == CollapseSlashes(p) || r + "/" == CollapseSlashes(p)
  {
    var q := StripTrailingSlash(CollapseSlashes(p));
    if q == [] then "/" else q
  }

  /** Normalising a path twice changes nothing more. */
  lemma NormalizePathIdempotent(p: string)
    ensures NormalizePath(NormalizePath(p)) == NormalizePath(p)
  {
    var r := NormalizePath(p);
    CollapseWithoutDoubleSlash(r);
    if r != "/" {
      assert StripTrailingSlash(r) == r;
    }
  }

  /** Apart from slashes, normalisation keeps every character of the path, in order. */
  lemma NormalizePathKeepsNonSlash(p: string)
    ensures NonSlash(NormalizePath(p)) == NonSlash(p)
  {
    var c := CollapseSlashes(p);
    var q := StripTrailingSlash(c);
    if |c| > 0 && c[|c| - 1] == '/' {
      NonSlashSnocSlash(q);
      assert q + "/" == c;
    }
    if q == [] {
      assert NonSlash("/") == [];
    }
  }

  lemma {:induction false} NonSlashSnocSlash(s: string)
    ensures NonSlash(s + "/") == NonSlash(s)
    decreases |s|
  {
    if s == [] {
      assert NonSlash("/") == [];
    } else {
      assert (s + "/")[1..] == s[1..] + "/";
      NonSlashSnocSlash(s[1..]);
    }
  }

  // ---------------------------------------------------------------------------------------
  // The cache key

  /** `protocol + '//' + hostname + pathname + search` of the normalised record; the hash is
      dropped. */
  function Key(u: ParsedUrl): string {
    ToLowerAscii(u.protocol) + "//" + ToLowerAscii(u.hostname) + NormalizePath(u.pathname) + u.search
  }

  /** `normalizeAndValidateUrl`: `None` (the source's `null`) when parsing threw or `isValidUrl`
      fails, the key otherwise. */
  function NormalizeAndValidateUrl(parsed: Option<ParsedUrl>): (r: Option<string>)
    ensures r.None? <==> parsed.None? || !IsValidUrl(parsed.value)
    ensures r.Some? ==> r.value == Key(parsed.value)
  {
    match parsed
    case None => None
    case Some(url) => if !IsValidUrl(url) then None else Some(Key(url))
  }

  /** The record with the normalised fields in place of the parsed ones. */
  function Canonical(u: ParsedUrl): ParsedUrl {
    u.(protocol := ToLowerAscii(u.protocol), hostname := ToLowerAscii(u.hostname),
       pathname := NormalizePath(u.pathname))
  }

  lemma LowerKeepsHostname(h: string)
    ensures HostnameMatches(ToLowerAscii(h)) <==> HostnameMatches(h)
  {
    var l := ToLowerAscii(h);
    assert forall i :: 0 <= i < |h| ==> (IsHostnameChar(l[i]) <==> IsHostnameChar(h[i]));
  }

  /** Normalising an already normalised record yields the same key, and the same verdict. */
  lemma NormalizeIdempotent(u: ParsedUrl)
    ensures NormalizeAndValidateUrl(Some(Canonical(u))) == NormalizeAndValidateUrl(Some(u))
  {
    ToLowerIdempotent(u.protocol);
    ToLowerIdempotent(u.hostname);
    NormalizePathIdempotent(u.pathname);
    LowerKeepsHostname(u.hostname);
  }

  /** Two spellings of one page, differing in hostname case and in doubled and trailing
      slashes, share a key (the fragment is not part of any key). */
  lemma SpellingsShareKey()
    ensures Key(ParsedUrl("https:", "EXAMPLE.com", "/a//b/", "?q=1", "https://EXAMPLE.com/a//b/?q=1#top"))
         == Key(ParsedUrl("https:", "example.com", "/a/b", "?q=1", "https://example.com/a/b?q=1"))
  {
    ExamplePaths();
    ExampleHosts();
  }

  lemma ExamplePaths()
    ensures NormalizePath("/a//b/") == NormalizePath("/a/b") == "/a/b"
  {
    assert CollapseSlashes("/b/") == "/b/";
    assert CollapseSlashes("//b/") == "/b/";
    assert CollapseSlashes("/a//b/") == "/a/b/";
    assert CollapseSlashes("/a/b") == "/a/b";
  }

  lemma ExampleHosts()
    ensures ToLowerAscii("EXAMPLE.com") == ToLowerAscii("example.com") == "example.com"
    ensures ToLowerAscii("https:") == "https:"
  {
  }

  // ---------------------------------------------------------------------------------------
  // Link validity

  /** The protocol `isValidLink` tests: the lower-cased parsed protocol, or the page's own
      protocol when that is empty. */
  function EffectiveProtocol(url: ParsedUrl, pageProtocol: string): string {
    var lowered := ToLowerAscii(url.protocol);
    if lowered == [] then pageProtocol else lowered
  }

  predicate IsScriptLikeHref(href: string) {
    href == [] || href == "#" || StartsWith(href, "javascript:") || href == "void(0)"
  }

  /** `isValidLink`, with the DOM and style checks as inputs and `protocols` the configured
      allow-list. */
  function IsValidLink(link: LinkFacts, protocols: seq<string>, pageProtocol: string): bool {
    if link.href == [] || !link.isConnected || !link.hasOffsetParent then false
    else if IsScriptLikeHref(Trim(link.href)) then false
    else if link.hidden then false
    else
      match link.parsed
      case None => false
      case Some(url) =>
        var protocol := EffectiveProtocol(url, pageProtocol);
        if protocol in SkipProtocols then false
        else if !IsValidUrl(url) then false
        else protocol in protocols
  }

  /** `isValidLink` holds exactly when the anchor is shown, its trimmed `href` is not empty,
      `#`, `void(0)` or a `javascript:` URL, it parses, its protocol is not on the deny-list but
      is on the allow-list, and `isValidUrl` accepts it. */
  lemma IsValidLinkIff(link: LinkFacts, protocols: seq<string>, pageProtocol: string)
    ensures IsValidLink(link, protocols, pageProtocol) <==>
      && link.href != [] && link.isConnected && link.hasOffsetParent && !link.hidden
      && !IsScriptLikeHref(Trim(link.href))
      && link.parsed.Some?
      && EffectiveProtocol(link.parsed.value, pageProtocol) !in SkipProtocols
      && EffectiveProtocol(link.parsed.value, pageProtocol) in protocols
      && SafeChars(link.parsed.value.href) && |link.parsed.value.href| <= 2000
      && HostnameMatches(link.parsed.value.hostname)
  {
    if link.parsed.Some? {
      IsValidUrlIff(link.parsed.value);
    }
  }

  /** A `file:` URL has an empty hostname, so no `file:` link is ever valid, even though
      `file:` is on the default allow-list. */
  lemma FileLinksNeverValid(link: LinkFacts, protocols: seq<string>, pageProtocol: string)
    requires link.parsed.Some? && link.parsed.value.hostname == []
    ensures !IsValidLink(link, protocols, pageProtocol)
  {
  }

  /** A deny-listed protocol is rejected even when the allow-list names it. */
  lemma SkippedProtocolBeatsAllowList(link: LinkFacts, protocols: seq<string>, pageProtocol: string)
    requires link.parsed.Some? && EffectiveProtocol(link.parsed.value, pageProtocol) in SkipProtocols
    ensures !IsValidLink(link, protocols, pageProtocol)
  {
  }

  /** An `href` that trims to a `javascript:` URL is rejected before it is parsed. */
  lemma ScriptHrefRejected(link: LinkFacts, protocols: seq<string>, pageProtocol: string)
    requires StartsWith(Trim(link.href), "javascript:")
    ensures !IsValidLink(link, protocols, pageProtocol)
  {
  }

  /** A URL of 2001 characters is rejected whatever else it holds. */
  lemma OverlongUrlRejected(u: ParsedUrl)
    requires |u.href| == 2001
    ensures !IsValidUrl(u) && NormalizeAndValidateUrl(Some(u)) == None
  {
  }
}
