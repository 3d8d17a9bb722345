/** What a canonical feed URL is made of, and what happens when it is
    canonicalised once more: `sanitize_url` parses back to the components it
    wrote, and applying it twice gives what applying it once gives, for
    every URL with a scheme or a network location whose path, if the scheme
    uses parameters, holds no `;`. */
module Canonical {
  import opened PyStr
  import opened Pathlib
  import opened UrlParse
  import opened Sync

  /** The URLs for which the canonical form is stable: something in front
      of the path (a scheme or a network location), and no `;` in the path
      when the scheme splits parameters off it. */
  predicate Stable(url: string)
  {
    var p := Urlparse(url);
    url != "" && (p.scheme != "" || p.netloc != "") && (p.scheme in UsesParams ==> ';' !in p.path)
  }

  /** A character other than `/` that the parsed path lacks is not in the
      canonical path either. */
  lemma CanonicalPathLacks(p: Url, ch: char)
    requires ch != '/' && ch !in p.path
    ensures ch !in Canonicalize(p).path
  {
    var w := Without(Segments(p.path), UnwantedUrlPathParts);
    SegmentsLack(p.path, ch);
    forall k | 0 <= k < |w| ensures ch !in w[k] {
      WithoutMembers(Segments(p.path), UnwantedUrlPathParts, w[k]);
    }
    JoinLacks('/', w, ch);
  }

  /** The canonical components of a stable URL are ones that `urlparse`
      gets back from `urlunparse`. */
  lemma CanonicalUnparseable(url: string)
    requires Stable(url)
    ensures Unparseable(Canonicalize(Urlparse(url)))
  {
    var p := Urlparse(url);
    var c := Canonicalize(p);
    CanonicalPathLacks(p, '#');
    CanonicalPathLacks(p, '?');
    CanonicalPathLacks(p, '\t');
    CanonicalPathLacks(p, '\r');
    CanonicalPathLacks(p, '\n');
    if p.scheme in UsesParams {
      CanonicalPathLacks(p, ';');
    }
    PathWithParams(c.path, c.params);
    QueriesClean();
  }

  /** Neither canonical query holds a `#` or a character `urlsplit`
      removes. */
  lemma QueriesClean()
    ensures '#' !in OTextQuery && NoUnsafe(OTextQuery)
    ensures '#' !in ShaarliQuery && NoUnsafe(ShaarliQuery)
  {
  }

  /** A canonical path, with or without parameters, does not start with
      `//`. */
  lemma PathWithParams(path: string, params: string)
    requires path == "/" || (path != "" && path[0] != '/')
    ensures !StartsWith(WithPart(path, ';', params), "//")
  {
    var joined := WithPart(path, ';', params);
    assert joined[0] == path[0];
    if path == "/" {
      assert |joined| >= 2 ==> joined[1] == ';';
    }
  }

  /** `urlparse` of a canonical URL gives back the canonical components,
      with the path behind a network location written with a leading `/`;
      the path components are the same. */
  lemma SanitizeReparses(url: string)
    requires Stable(url)
    ensures var c := Canonicalize(Urlparse(url));
      && Urlparse(Sanitize(url)) == c.(path := PlacedPath(c.scheme, c.netloc, c.path))
      && Segments(Urlparse(Sanitize(url)).path) == Segments(c.path)
  {
    var p := Urlparse(url);
    var c := Canonicalize(p);
    CanonicalUnparseable(url);
    UrlparseUnparse(c);
    var w := Without(Segments(p.path), UnwantedUrlPathParts);
    WithoutSegments(Segments(p.path), UnwantedUrlPathParts);
    var placed := PlacedPath(c.scheme, c.netloc, c.path);
    if c.path != "/" && placed != c.path {
      assert c.path == Join('/', w);
      SegmentsOfJoin(w, "/");
      SegmentsOfJoin(w, "");
    }
  }

  /** A component is in the canonical path exactly when it is in the
      parsed path and is not, as a whole, one of the unwanted components. */
  lemma CanonicalSegments(p: Url, x: string)
    ensures x in Segments(Canonicalize(p).path) <==> x in Segments(p.path) && x !in UnwantedUrlPathParts
  {
    WithoutMembers(Segments(p.path), UnwantedUrlPathParts, x);
  }

  /** The same, read back from the canonical URL: no unwanted component is
      left in it, and every other component of the original path is. */
  lemma SanitizeSegments(url: string, x: string)
    requires Stable(url)
    ensures x in Segments(Urlparse(Sanitize(url)).path)
        <==> x in Segments(Urlparse(url).path) && x !in UnwantedUrlPathParts
  {
    SanitizeReparses(url);
    CanonicalSegments(Urlparse(url), x);
  }

  /** `Canonicalize` looks at the path only through its components, and
      not at the query at all. */
  lemma CanonicalizeBySegments(a: Url, b: Url)
    requires a.scheme == b.scheme && a.netloc == b.netloc
    requires a.params == b.params && a.fragment == b.fragment
    requires Without(Segments(a.path), UnwantedUrlPathParts) == Without(Segments(b.path), UnwantedUrlPathParts)
    ensures Canonicalize(a) == Canonicalize(b)
  {
  }

  /** Parsing a canonical URL and canonicalising the result again gives
      the same components. */
  lemma RecanonicalizeStable(url: string)
    requires Stable(url)
    ensures Canonicalize(Urlparse(Sanitize(url))) == Canonicalize(Urlparse(url))
  {
    var p := Urlparse(url);
    var q := Urlparse(Sanitize(url));
    SanitizeReparses(url);
    var w := Without(Segments(p.path), UnwantedUrlPathParts);
    assert Segments(q.path) == w;
    WithoutIdempotent(Segments(p.path), UnwantedUrlPathParts);
    CanonicalizeBySegments(q, p);
  }

  /** Canonicalising a stable URL twice gives what canonicalising it once
      gives. */
  lemma SanitizeIdempotent(url: string)
    requires Stable(url)
    ensures Sanitize(Sanitize(url)) == Sanitize(url)
  {
    RecanonicalizeStable(url);
    assert Sanitize(url) != "";
  }

  // ---------------------------------------------------------------------
  // Where the canonical form is not stable
  // ---------------------------------------------------------------------

  /** A relative URL whose cleaned path starts with a scheme-like word:
      `sanitize_url` is not idempotent on it, since the second pass reads
      `A` as a scheme and lower-cases it. */
  lemma NotIdempotentWithoutScheme()
    ensures Sanitize("feed/A:b") == "A:b?do=rss"
    ensures Sanitize(Sanitize("feed/A:b")) != Sanitize("feed/A:b")
  {
    FirstPassExample();
    SecondPassExample();
    assert "A:b?do=rss"[0] == 'A';
    SchemeChangesHead("A:b?do=rss");
  }

  /** A URL whose first character is not that of the scheme `urlparse`
      finds in it is rewritten by `sanitize_url`. */
  lemma SchemeChangesHead(y: string)
    requires y != "" && Urlparse(y).scheme != "" && y[0] != Urlparse(y).scheme[0]
    ensures Sanitize(y) != y
  {
    SanitizeStartsWithScheme(y);
    var x := Sanitize(y);
    assert x[0] == (Urlparse(y).scheme + ":")[0];
  }

  lemma FirstPassExample()
    ensures Sanitize("feed/A:b") == "A:b?do=rss"
  {
    var seg := "A:b";
    assert Plain(seg) && IsSegment(seg) && seg !in UnwantedUrlPathParts;
    assert !EndsWith(seg, "rss.php");
    RelativeSanitized(seg);
    FirstPassSpelled();
  }

  lemma FirstPassSpelled()
    ensures "feed/" + "A:b" == "feed/A:b"
    ensures "A:b" + "?" + ShaarliQuery == "A:b?do=rss"
  {
  }

  lemma SecondPassExample()
    ensures Urlparse("A:b?do=rss").scheme == "a"
  {
    SecondPassSpelled();
    SchemeFound("A", "b?do=rss");
    assert Lower("A") == "a" by {
      assert Lower("A")[0] == 'a';
    }
  }

  lemma SecondPassSpelled()
    ensures "A" + ":" + "b?do=rss" == "A:b?do=rss"
    ensures NoUnsafe("b?do=rss")
  {
  }

  /** `urlparse("feed/" + seg)`: the `/` comes before any `:`, so there is
      no scheme and the whole URL is the path. */
  lemma RelativeParsed(seg: string)
    requires Plain(seg)
    ensures Urlparse("feed/" + seg) == Url("", "", "feed/" + seg, "", "", "")
  {
    var u := "feed/" + seg;
    RelativePlain(seg);
    PrepareKeeps(u);
    RelativeNoScheme(seg);
    assert !StartsWith(u, "//");
  }

  lemma RelativePlain(seg: string)
    requires Plain(seg)
    ensures var u := "feed/" + seg;
      u[0] == 'f' && NoUnsafe(u) && '#' !in u && '?' !in u && ';' !in u
  {
    var u := "feed/" + seg;
    assert u == "feed/" + seg;
  }

  lemma RelativeNoScheme(seg: string)
    ensures SplitScheme("feed/" + seg) == ("", "feed/" + seg)
  {
    var u := "feed/" + seg;
    assert u[0] == 'f' && u[1] == 'e' && u[2] == 'e' && u[3] == 'd' && u[4] == '/';
    assert !IsSchemeChar(u[4]);
  }

  /** `feed/` and one wanted component clean to that component. */
  lemma RelativeCleaned(seg: string)
    requires IsSegment(seg) && seg !in UnwantedUrlPathParts
    ensures CleanPath("feed/" + seg) == seg
  {
    var pieces := ["feed", seg];
    JoinCons('/', "feed", [seg]);
    assert Join('/', pieces) == "feed/" + seg;
    SegmentsOfPieces(pieces, "");
    assert "" + Join('/', pieces) == "feed/" + seg;
    DropTrivialKeeps(pieces);
    assert Without(pieces, UnwantedUrlPathParts) == [seg];
  }

  /** `sanitize_url("feed/" + seg)` is `seg` with the Shaarli query: no
      scheme and no network location are written back. */
  lemma RelativeSanitized(seg: string)
    requires Plain(seg) && IsSegment(seg) && seg !in UnwantedUrlPathParts
    requires !EndsWith(seg, "rss.php")
    ensures Sanitize("feed/" + seg) == seg + "?" + ShaarliQuery
  {
    RelativeParsed(seg);
    RelativeCleaned(seg);
    var c := Canonicalize(Urlparse("feed/" + seg));
    assert c == Url("", "", seg, "", ShaarliQuery, "");
    assert !NetlocForm("", "", seg);
  }

  /** A scheme-like word in front of a `:` is taken for the scheme, in
      lower case. */
  lemma SchemeFound(word: string, rest: string)
    requires word != "" && IsAsciiAlpha(word[0])
    requires forall k :: 0 <= k < |word| ==> IsSchemeChar(word[k])
    requires NoUnsafe(rest)
    ensures Urlparse(word + ":" + rest).scheme == Lower(word)
  {
    var y := word + ":" + rest;
    WordPlain(word, rest);
    PrepareKeeps(y);
    WordScheme(word, rest);
    assert Urlsplit(y).scheme == Lower(word);
  }

  lemma WordPlain(word: string, rest: string)
    requires word != "" && IsAsciiAlpha(word[0])
    requires forall k :: 0 <= k < |word| ==> IsSchemeChar(word[k])
    requires NoUnsafe(rest)
    ensures var y := word + ":" + rest;
      NoUnsafe(y) && !IsC0OrSpace(y[0])
  {
    assert NoUnsafe(word);
  }

  lemma WordScheme(word: string, rest: string)
    requires word != "" && IsAsciiAlpha(word[0])
    requires forall k :: 0 <= k < |word| ==> IsSchemeChar(word[k])
    ensures SplitScheme(word + ":" + rest) == (Lower(word), rest)
  {
    var y := word + ":" + rest;
    assert ':' !in word;
    assert y == word + [':'] + rest;
    FindAfter(word, ':', rest);
    assert y[..|word|] == word && y[|word| + 1..] == rest;
  }

  /** What `sanitize_url` writes starts with the scheme `urlparse` found
      and its `:`. */
  lemma SanitizeStartsWithScheme(url: string)
    requires url != "" && Urlparse(url).scheme != ""
    ensures StartsWith(Sanitize(url), Urlparse(url).scheme + ":")
  {
    var c := Canonicalize(Urlparse(url));
    UnsplitShape(c.scheme, c.netloc, WithPart(c.path, ';', c.params), c.query, c.fragment);
  }
}
