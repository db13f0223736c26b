/**
 * Turning the lines of the domain list into probe targets: `normalize_url`, the part of
 * `urlsplit` it depends on, `only_domain`, and the filtering, empty-list rejection and
 * order-preserving de-duplication of `read_domains`.
 */
module Targets {
  import opened Wrappers
  import opened Text

  const HttpPrefix := "http://"
  const HttpsPrefix := "https://"

  /** What `read_domains` raises when no line of the list is usable. */
  const EmptyListError := "domains.txt is empty"

  // ---------------- the slice of urllib.parse.urlsplit ----------------

  /** Tab, CR and LF are deleted anywhere in the URL before it is split. */
  predicate IsUnsafe(c: char)
  {
    c == '\t' || c == '\r' || c == '\n'
  }

  function RemoveUnsafe(s: string): string
  {
    if s == [] then [] else (if IsUnsafe(s[0]) then [] else [s[0]]) + RemoveUnsafe(s[1..])
  }

  /** Leading C0 control characters and spaces are stripped before splitting. */
  function StripC0Left(s: string): string
  {
    if |s| > 0 && s[0] <= ' ' then StripC0Left(s[1..]) else s
  }

  /** The URL text `urlsplit` actually parses. */
  function Cleaned(url: string): string
  {
    RemoveUnsafe(StripC0Left(url))
  }

  predicate IsAsciiLetter(c: char)
  {
    'a' <= c <= 'z' || 'A' <= c <= 'Z'
  }

  predicate IsSchemeChar(c: char)
  {
    IsAsciiLetter(c) || IsDigit(c) || c == '+' || c == '-' || c == '.'
  }

  /** `s.find(c)`. */
  function Find(s: string, c: char): (r: int)
    ensures -1 <= r < |s|
  {
    if s == [] then -1
    else if s[0] == c then 0
    else
      var k := Find(s[1..], c);
      if k < 0 then -1 else k + 1
  }

  /** Index of the ':' that ends a scheme, or -1 when the text has no scheme. */
  function SchemeColon(u: string): (i: int)
    ensures -1 <= i < |u|
  {
    var i := Find(u, ':');
    if i > 0 && IsAsciiLetter(u[0]) && forall j :: 0 <= j < i ==> IsSchemeChar(u[j]) then i else -1
  }

  /** `urlsplit(url).scheme`: lower-cased, `""` when there is none. */
  function UrlScheme(url: string): string
  {
    SchemeOfCleaned(Cleaned(url))
  }

  function SchemeOfCleaned(u: string): string
  {
    var i := SchemeColon(u);
    if i > 0 then Lower(u[..i]) else ""
  }

  predicate IsNetlocEnd(c: char)
  {
    c == '/' || c == '?' || c == '#'
  }

  /** The longest prefix of `s` without `/`, `?` or `#`. */
  function UpToNetlocEnd(s: string): string
  {
    if s == [] || IsNetlocEnd(s[0]) then [] else [s[0]] + UpToNetlocEnd(s[1..])
  }

  lemma {:induction false} UpToNetlocEndPrefix(s: string)
    ensures var r := UpToNetlocEnd(s);
      && r <= s
      && (forall i :: 0 <= i < |r| ==> !IsNetlocEnd(r[i]))
      && (|r| < |s| ==> IsNetlocEnd(s[|r|]))
    decreases |s|
  {
    if s != [] && !IsNetlocEnd(s[0]) {
      UpToNetlocEndPrefix(s[1..]);
    }
  }

  /** `urlsplit(url).netloc`: after the scheme, the text behind `//` up to `/`, `?` or `#`. */
  function UrlNetloc(url: string): string
  {
    NetlocOfCleaned(Cleaned(url))
  }

  function NetlocOfCleaned(u: string): string
  {
    var i := SchemeColon(u);
    var rest := if i > 0 then u[i + 1..] else u;
    if "//" <= rest then UpToNetlocEnd(rest[2..]) else ""
  }

  // ---------------- normalize_url ----------------

  /** The scheme a stripped line ends up with: `http` only when it says so. */
  function LineScheme(s: string): string
  {
    if HttpPrefix <= s then "http" else "https"
  }

  /** The host part of a stripped line: what follows its `http(s)://` prefix, if any. */
  function LineAuthority(s: string): string
  {
    UpToNetlocEnd(RemoveUnsafe(LineBody(s)))
  }

  /** `s` itself when it starts with `http://` or `https://`, otherwise `https://` + `s`. */
  function WithScheme(s: string): string
  {
    if HttpPrefix <= s || HttpsPrefix <= s then s else HttpsPrefix + s
  }

  /** `normalize_url(line)` as the program writes it, with `urlparse` for the parsing step. */
  function NormalizeUrl(checkPath: string, line: string): string
  {
    var s := Strip(line);
    if s == "" || "#" <= s then ""
    else
      var u := WithScheme(s);
      var netloc := UrlNetloc(u);
      if netloc == "" then "" else UrlScheme(u) + "://" + netloc + checkPath
  }

  /** What follows the `http://` or `https://` the line has, or the whole line. */
  function LineBody(s: string): string
  {
    if HttpPrefix <= s then s[|HttpPrefix|..]
    else if HttpsPrefix <= s then s[|HttpsPrefix|..]
    else s
  }

  lemma WithSchemeSplits(s: string)
    ensures WithScheme(s) == LineScheme(s) + "://" + LineBody(s)
  {
    if HttpPrefix <= s {
      assert s == HttpPrefix + s[|HttpPrefix|..];
    } else if HttpsPrefix <= s {
      assert s == HttpsPrefix + s[|HttpsPrefix|..];
    }
  }

  /**
   * `normalize_url` drops a line exactly when it is blank after stripping, starts with `#`,
   * or has no host; otherwise it yields the line's scheme (`https` unless the line says
   * `http://`), `://`, the host, and the check path.
   */
  lemma NormalizeUrlCases(checkPath: string, line: string)
    ensures var s := Strip(line);
      NormalizeUrl(checkPath, line) == "" <==> s == "" || "#" <= s || LineAuthority(s) == ""
    ensures var s := Strip(line);
      NormalizeUrl(checkPath, line) != "" ==>
        NormalizeUrl(checkPath, line) == LineScheme(s) + "://" + LineAuthority(s) + checkPath
  {
    var s := Strip(line);
    WithSchemeSplits(s);
    HttpSchemesValid();
    UrlSchemeOfSchemed(LineScheme(s), LineBody(s));
    assert Lower(LineScheme(s)) == LineScheme(s);
    UrlNetlocOfSchemed(LineScheme(s), LineBody(s));
  }

  lemma {:induction false} RemoveUnsafeIsSafe(s: string)
    ensures forall i :: 0 <= i < |RemoveUnsafe(s)| ==> !IsUnsafe(RemoveUnsafe(s)[i])
    decreases |s|
  {
    if s != [] {
      RemoveUnsafeIsSafe(s[1..]);
    }
  }

  lemma {:induction false} RemoveUnsafeAppend(a: string, b: string)
    ensures RemoveUnsafe(a + b) == RemoveUnsafe(a) + RemoveUnsafe(b)
    decreases |a|
  {
    if a != [] {
      assert (a + b)[0] == a[0] && (a + b)[1..] == a[1..] + b;
      RemoveUnsafeAppend(a[1..], b);
      var x := if IsUnsafe(a[0]) then [] else [a[0]];
      calc {
        RemoveUnsafe(a + b);
        x + RemoveUnsafe(a[1..] + b);
        x + (RemoveUnsafe(a[1..]) + RemoveUnsafe(b));
        (x + RemoveUnsafe(a[1..])) + RemoveUnsafe(b);
        RemoveUnsafe(a) + RemoveUnsafe(b);
      }
    } else {
      assert a + b == b;
    }
  }

  lemma {:induction false} RemoveUnsafeOfSafe(s: string)
    requires forall i :: 0 <= i < |s| ==> !IsUnsafe(s[i])
    ensures RemoveUnsafe(s) == s
    decreases |s|
  {
    if s != [] {
      RemoveUnsafeOfSafe(s[1..]);
    }
  }

  lemma {:induction false} FindFirst(a: string, c: char, b: string)
    requires c !in a
    ensures Find(a + [c] + b, c) == |a|
    decreases |a|
  {
    if a != [] {
      assert (a + [c] + b)[1..] == a[1..] + [c] + b;
      FindFirst(a[1..], c, b);
    }
  }

  /** A scheme `urlsplit` recognises: an ASCII letter, then letters, digits, `+`, `-` or `.`. */
  predicate ValidScheme(scheme: string)
  {
    |scheme| > 0 && IsAsciiLetter(scheme[0]) && forall i :: 0 <= i < |scheme| ==> IsSchemeChar(scheme[i])
  }

  lemma HttpSchemesValid()
    ensures ValidScheme("http") && ValidScheme("https")
  {
    assert "https"[4] == 's';
  }

  lemma SchemeHeadSafe(scheme: string)
    requires ValidScheme(scheme)
    ensures var head := scheme + "://";
      && head[0] > ' '
      && forall i :: 0 <= i < |head| ==> !IsUnsafe(head[i])
  {
    var head := scheme + "://";
    assert head[0] == scheme[0];
    forall i | 0 <= i < |head|
      ensures !IsUnsafe(head[i])
    {
      if i < |scheme| {
        assert head[i] == scheme[i];
      }
    }
  }

  /** A head that starts above the C0 range and holds no tab, CR or LF survives cleaning. */
  lemma CleanedSafeHead(head: string, body: string)
    requires |head| > 0 && head[0] > ' '
    requires forall i :: 0 <= i < |head| ==> !IsUnsafe(head[i])
    ensures Cleaned(head + body) == head + RemoveUnsafe(body)
  {
    assert (head + body)[0] == head[0];
    assert StripC0Left(head + body) == head + body;
    RemoveUnsafeAppend(head, body);
    RemoveUnsafeOfSafe(head);
  }

  lemma CleanedSchemed(scheme: string, body: string)
    requires ValidScheme(scheme)
    ensures Cleaned(scheme + "://" + body) == scheme + ":" + ("//" + RemoveUnsafe(body))
  {
    SchemeHeadSafe(scheme);
    CleanedSafeHead(scheme + "://", body);
    SchemeSeparator(scheme, RemoveUnsafe(body));
  }

  /** `scheme://rest` is the scheme, its colon, and `//rest`. */
  lemma SchemeSeparator(scheme: string, rest: string)
    ensures scheme + "://" + rest == scheme + ":" + ("//" + rest)
  {
    assert "://" == ":" + "//";
  }

  lemma SchemeColonAt(scheme: string, rest: string)
    requires ValidScheme(scheme)
    ensures SchemeColon(scheme + ":" + rest) == |scheme|
  {
    var u := scheme + ":" + rest;
    assert ':' !in scheme;
    FindFirst(scheme, ':', rest);
    assert u[..|scheme|] == scheme;
  }

  /** `urlsplit` finds the scheme of `scheme://body`, lower-cased. */
  lemma UrlSchemeOfSchemed(scheme: string, body: string)
    requires ValidScheme(scheme)
    ensures UrlScheme(scheme + "://" + body) == Lower(scheme)
  {
    var rest := "//" + RemoveUnsafe(body);
    CleanedSchemed(scheme, body);
    SchemeOf(scheme, rest);
  }

  /** The host `urlsplit` finds in `scheme://body`: `body` up to its first `/`, `?` or `#`. */
  lemma UrlNetlocOfSchemed(scheme: string, body: string)
    requires ValidScheme(scheme)
    ensures UrlNetloc(scheme + "://" + body) == UpToNetlocEnd(RemoveUnsafe(body))
  {
    var rest := "//" + RemoveUnsafe(body);
    CleanedSchemed(scheme, body);
    NetlocOf(scheme, rest);
    assert rest[2..] == RemoveUnsafe(body);
  }

  lemma SchemeOf(scheme: string, rest: string)
    requires ValidScheme(scheme)
    ensures SchemeOfCleaned(scheme + ":" + rest) == Lower(scheme)
  {
    var u := scheme + ":" + rest;
    SchemeColonAt(scheme, rest);
    assert u[..|scheme|] == scheme;
  }

  lemma NetlocOf(scheme: string, rest: string)
    requires ValidScheme(scheme)
    requires "//" <= rest
    ensures NetlocOfCleaned(scheme + ":" + rest) == UpToNetlocEnd(rest[2..])
  {
    var u := scheme + ":" + rest;
    SchemeColonAt(scheme, rest);
    assert u[|scheme| + 1..] == rest;
  }

  // ---------------- only_domain ----------------

  /** `only_domain(url)`: the lower-cased host of a URL. */
  function OnlyDomain(url: string): string
  {
    Lower(UrlNetloc(url))
  }

  lemma {:induction false} UpToNetlocEndOfHost(host: string, path: string)
    requires forall i :: 0 <= i < |host| ==> !IsNetlocEnd(host[i])
    requires path == "" || IsNetlocEnd(path[0])
    ensures UpToNetlocEnd(host + path) == host
    decreases |host|
  {
    if host != [] {
      assert (host + path)[1..] == host[1..] + path;
      UpToNetlocEndOfHost(host[1..], path);
    }
  }

  /** Parsing a rebuilt target gives back exactly the host it was built from. */
  lemma NetlocOfTarget(scheme: string, host: string, checkPath: string)
    requires ValidScheme(scheme)
    requires forall i :: 0 <= i < |host| ==> !IsNetlocEnd(host[i]) && !IsUnsafe(host[i])
    requires checkPath == "" || IsNetlocEnd(checkPath[0])
    ensures UrlNetloc(scheme + "://" + host + checkPath) == host
  {
    assert scheme + "://" + host + checkPath == scheme + "://" + (host + checkPath);
    UrlNetlocOfSchemed(scheme, host + checkPath);
    RemoveUnsafeAppend(host, checkPath);
    RemoveUnsafeOfSafe(host);
    var p := RemoveUnsafe(checkPath);
    assert p == "" || IsNetlocEnd(p[0]);
    UpToNetlocEndOfHost(host, p);
  }

  /**
   * The host `only_domain` shows for a target is the host `normalize_url` kept, lower-cased,
   * provided the check path starts with `/`, `?` or `#` (or is empty), as the default `/` does.
   */
  lemma OnlyDomainOfTarget(checkPath: string, line: string)
    requires NormalizeUrl(checkPath, line) != ""
    requires checkPath == "" || IsNetlocEnd(checkPath[0])
    ensures OnlyDomain(NormalizeUrl(checkPath, line)) == Lower(LineAuthority(Strip(line)))
  {
    var s := Strip(line);
    var host := LineAuthority(s);
    var safe := RemoveUnsafe(LineBody(s));
    NormalizeUrlCases(checkPath, line);
    RemoveUnsafeIsSafe(LineBody(s));
    UpToNetlocEndPrefix(safe);
    assert forall i :: 0 <= i < |host| ==> host[i] == safe[i];
    HttpSchemesValid();
    NetlocOfTarget(LineScheme(s), host, checkPath);
  }

  // ---------------- read_domains ----------------

  /** `normalize_url` applied to every line of the list. */
  function Normalized(checkPath: string, lines: seq<string>): (us: seq<string>)
    ensures |us| == |lines|
  {
    seq(|lines|, i requires 0 <= i < |lines| => NormalizeUrl(checkPath, lines[i]))
  }

  /** The non-empty strings of `us`, in order. */
  function NonEmpty(us: seq<string>): seq<string>
    decreases |us|
  {
    if us == [] then []
    else NonEmpty(us[..|us| - 1]) + (if us[|us| - 1] != "" then [us[|us| - 1]] else [])
  }

  /** Filtering keeps exactly the non-empty strings, and leaves nothing only when all are empty. */
  lemma {:induction false} NonEmptyMembers(us: seq<string>)
    ensures forall x :: x in NonEmpty(us) <==> x != "" && x in us
    ensures NonEmpty(us) == [] <==> forall i :: 0 <= i < |us| ==> us[i] == ""
    decreases |us|
  {
    if us != [] {
      var n := |us| - 1;
      NonEmptyMembers(us[..n]);
      assert us == us[..n] + [us[n]];
      assert forall i :: 0 <= i < n ==> us[..n][i] == us[i];
    }
  }

  /** The non-empty normalised lines, in file order (the first loop of `read_domains`). */
  function Usable(checkPath: string, lines: seq<string>): seq<string>
  {
    NonEmpty(Normalized(checkPath, lines))
  }

  /** The position of the first occurrence of `x` in `s`. */
  function FirstIndex(s: seq<string>, x: string): (k: nat)
    requires x in s
    ensures k < |s| && s[k] == x && x !in s[..k]
  {
    if s[0] == x then 0
    else
      var k := FirstIndex(s[1..], x);
      assert s[1..][..k] == s[1..k + 1];
      k + 1
  }

  predicate NoDuplicates(s: seq<string>)
  {
    forall i, j :: 0 <= i < j < |s| ==> s[i] != s[j]
  }

  /**
   * `urls` with every repeat dropped: each distinct URL once, at the place of its first
   * occurrence.
   */
  function Unique(urls: seq<string>): (r: seq<string>)
    ensures forall x :: x in r <==> x in urls
    ensures NoDuplicates(r)
    decreases |urls|
  {
    if urls == [] then []
    else
      var n := |urls| - 1;
      var p := Unique(urls[..n]);
      var x := urls[n];
      if x in p then p else p + [x]
  }

  lemma {:induction false} FirstIndexOfPrefix(urls: seq<string>, n: nat, y: string)
    requires n <= |urls| && y in urls[..n]
    ensures FirstIndex(urls, y) == FirstIndex(urls[..n], y)
  {
    var k := FirstIndex(urls[..n], y);
    assert urls[..k] == urls[..n][..k];
  }

  /** The kept URLs keep the order of their first occurrences in `urls`. */
  lemma {:induction false} UniqueOrder(urls: seq<string>)
    ensures forall i, j :: 0 <= i < j < |Unique(urls)| ==>
      FirstIndex(urls, Unique(urls)[i]) < FirstIndex(urls, Unique(urls)[j])
    decreases |urls|
  {
    var r := Unique(urls);
    if urls != [] {
      var n := |urls| - 1;
      var init := urls[..n];
      var p := Unique(init);
      var x := urls[n];
      UniqueOrder(init);
      assert forall k :: 0 <= k < |p| ==> p[k] in init;
      forall k | 0 <= k < |p|
        ensures FirstIndex(urls, p[k]) == FirstIndex(init, p[k]) < n
      {
        FirstIndexOfPrefix(urls, n, p[k]);
      }
      forall i, j | 0 <= i < j < |p|
        ensures FirstIndex(urls, p[i]) < FirstIndex(urls, p[j])
      {
        assert FirstIndex(init, p[i]) < FirstIndex(init, p[j]);
      }
      if x in p {
        assert r == p;
      } else {
        assert r == p + [x];
        assert x !in init;
        assert FirstIndex(urls, x) == n;
        forall i, j | 0 <= i < j < |r|
          ensures FirstIndex(urls, r[i]) < FirstIndex(urls, r[j])
        {
          assert r[i] == p[i];
          if j < |p| {
            assert r[j] == p[j];
          } else {
            assert r[j] == x;
          }
        }
      }
    }
  }

  /** The de-duplication loop of `read_domains`: a `seen` set beside the growing result. */
  method Dedupe(urls: seq<string>) returns (uniq: seq<string>)
    ensures uniq == Unique(urls)
  {
    var seen: set<string> := {};
    uniq := [];
    for i := 0 to |urls|
      invariant uniq == Unique(urls[..i])
      invariant forall x :: x in seen <==> x in uniq
    {
      var u := urls[i];
      assert urls[..i + 1][..i] == urls[..i];
      if u !in seen {
        uniq := uniq + [u];
        seen := seen + {u};
      }
    }
    assert urls[..|urls|] == urls;
  }

  /** The first loop of `read_domains`: normalise every line and keep the non-empty results. */
  method CollectUrls(checkPath: string, lines: seq<string>) returns (urls: seq<string>)
    ensures urls == Usable(checkPath, lines)
  {
    urls := [];
    for i := 0 to |lines|
      invariant urls == NonEmpty(Normalized(checkPath, lines[..i]))
    {
      var u := NormalizeUrl(checkPath, lines[i]);
      assert Normalized(checkPath, lines[..i + 1]) == Normalized(checkPath, lines[..i]) + [u];
      if u != "" {
        urls := urls + [u];
      }
    }
    assert lines[..|lines|] == lines;
  }

  /**
   * `read_domains` over the lines of the list: the usable targets without repeats, or the
   * empty-list error when no line is usable.
   */
  method ReadDomains(checkPath: string, lines: seq<string>) returns (r: Result<seq<string>, string>)
    ensures r.Failure? <==> forall i :: 0 <= i < |lines| ==> NormalizeUrl(checkPath, lines[i]) == ""
    ensures r.Failure? ==> r.error == EmptyListError
    ensures r.Success? ==> r.value == Unique(Usable(checkPath, lines))
    ensures r.Success? ==> |r.value| > 0 && NoDuplicates(r.value)
    ensures r.Success? ==> forall x :: x in r.value <==> x != "" && x in Normalized(checkPath, lines)
  {
    var urls := CollectUrls(checkPath, lines);
    var us := Normalized(checkPath, lines);
    NonEmptyMembers(us);
    assert urls == [] <==> forall i :: 0 <= i < |lines| ==> NormalizeUrl(checkPath, lines[i]) == "" by {
      assert forall i :: 0 <= i < |lines| ==> us[i] == NormalizeUrl(checkPath, lines[i]);
    }
    if urls == [] {
      return Failure(EmptyListError);
    }
    var uniq := Dedupe(urls);
    assert urls[0] in uniq;
    return Success(uniq);
  }
}
