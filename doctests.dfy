/** The examples in the docstring of `sanitize_url` (sync.py:36-88), each
    derived from one general statement about URLs with a scheme, a network
    location and a rooted path. */
module Doctests {
  import opened PyStr
  import opened Pathlib
  import opened UrlParse
  import opened Sync

  /** A scheme and a network location that `urlsplit` reads back as
      such. */
  predicate Origin(scheme: string, netloc: string)
  {
    IsScheme(scheme) && scheme != "" && netloc != "" && NoNetlocDelim(netloc) && NoUnsafe(netloc)
  }

  /** A path of pieces joined by slashes behind one slash or two, with
      nothing in it that `urlsplit` would take for a delimiter or remove. */
  predicate Rooted(root: string, pieces: seq<string>)
  {
    && (root == "/" || root == "//")
    && pieces != [] && (forall k :: 0 <= k < |pieces| ==> Plain(pieces[k]))
    && (Join('/', pieces) == "" || Join('/', pieces)[0] != '/')
  }

  /** A query that `urlsplit` leaves whole. */
  predicate PlainQuery(query: string)
  {
    '#' !in query && NoUnsafe(query)
  }

  /** A URL as the examples have them. */
  predicate Written(scheme: string, netloc: string, root: string, pieces: seq<string>, query: string)
  {
    Origin(scheme, netloc) && Rooted(root, pieces) && PlainQuery(query)
  }

  /** `path` is written as `pieces` behind `root`, and `cleaned` is the
      join of the components of it that are not unwanted. */
  predicate Cleans(root: string, pieces: seq<string>, path: string, cleaned: string)
  {
    && Rooted(root, pieces)
    && path == root + Join('/', pieces)
    && cleaned == Join('/', Without(DropTrivial(pieces), UnwantedUrlPathParts))
    && (cleaned == "" || cleaned[0] != '/')
  }

  /** `sanitize_url` of a URL with a scheme, a network location, a path of
      slash-separated pieces behind one or two slashes, a query and no
      fragment: the components that are not unwanted, joined by `/` (or `/`
      alone), and the query chosen by that path. */
  lemma SanitizeOfPieces(scheme: string, netloc: string, root: string, pieces: seq<string>, query: string)
    requires Written(scheme, netloc, root, pieces, query)
    ensures var path := Join('/', Without(DropTrivial(pieces), UnwantedUrlPathParts));
      Sanitize(Urlunsplit(scheme, netloc, root + Join('/', pieces), query, ""))
      == Urlunsplit(scheme, netloc, if path == "" then "/" else path, FeedQuery(path), "")
  {
    var written := root + Join('/', pieces);
    var url := Urlunsplit(scheme, netloc, written, query, "");
    var p := Url(scheme, netloc, written, "", query, "");
    ParseOfPieces(scheme, netloc, root, pieces, query);
    CanonicalOfPieces(scheme, netloc, root, pieces, query);
    var path := Join('/', Without(DropTrivial(pieces), UnwantedUrlPathParts));
    var c := Url(scheme, netloc, if path == "" then "/" else path, "", FeedQuery(path), "");
    UnsplitNonEmpty(scheme, netloc, written, query, "");
    SanitizeParsed(url, p);
  }

  /** `sanitize_url` of a non-empty URL whose components are known. */
  lemma SanitizeParsed(url: string, p: Url)
    requires url != "" && Urlparse(url) == p
    ensures Sanitize(url) == Urlunparse(Canonicalize(p))
  {
  }

  /** With a scheme, `urlunsplit` writes something. */
  lemma UnsplitNonEmpty(scheme: string, netloc: string, url: string, query: string, fragment: string)
    requires scheme != ""
    ensures Urlunsplit(scheme, netloc, url, query, fragment) != ""
  {
    UnsplitShape(scheme, netloc, url, query, fragment);
  }

  /** The canonical components of such a URL. */
  lemma CanonicalOfPieces(scheme: string, netloc: string, root: string, pieces: seq<string>, query: string)
    requires root == "/" || root == "//"
    requires pieces != [] && forall k :: 0 <= k < |pieces| ==> '/' !in pieces[k]
    requires Join('/', pieces) == "" || Join('/', pieces)[0] != '/'
    ensures var path := Join('/', Without(DropTrivial(pieces), UnwantedUrlPathParts));
      Canonicalize(Url(scheme, netloc, root + Join('/', pieces), "", query, ""))
      == Url(scheme, netloc, if path == "" then "/" else path, "", FeedQuery(path), "")
  {
    var written := root + Join('/', pieces);
    SegmentsOfPieces(pieces, root);
    assert CleanPath(written) == Join('/', Without(DropTrivial(pieces), UnwantedUrlPathParts));
  }

  /** `urlparse` of such a URL gives back its components. */
  lemma ParseOfPieces(scheme: string, netloc: string, root: string, pieces: seq<string>, query: string)
    requires Written(scheme, netloc, root, pieces, query)
    ensures var written := root + Join('/', pieces);
      Urlparse(Urlunsplit(scheme, netloc, written, query, "")) == Url(scheme, netloc, written, "", query, "")
  {
    var written := root + Join('/', pieces);
    WrittenSplittable(scheme, netloc, root, pieces, query);
    UrlsplitUnsplit(scheme, netloc, written, query, "");
    WrittenPlaced(scheme, netloc, root, pieces);
  }

  lemma WrittenSplittable(scheme: string, netloc: string, root: string, pieces: seq<string>, query: string)
    requires Written(scheme, netloc, root, pieces, query)
    ensures Splittable(scheme, netloc, root + Join('/', pieces), query, "")
  {
    JoinLacks('/', pieces, '#');
    JoinLacks('/', pieces, '?');
    JoinLacks('/', pieces, '\t');
    JoinLacks('/', pieces, '\r');
    JoinLacks('/', pieces, '\n');
  }

  lemma WrittenPlaced(scheme: string, netloc: string, root: string, pieces: seq<string>)
    requires Origin(scheme, netloc) && Rooted(root, pieces)
    ensures PlacedPath(scheme, netloc, root + Join('/', pieces)) == root + Join('/', pieces)
    ensures ';' !in root + Join('/', pieces)
  {
    JoinLacks('/', pieces, ';');
  }

  /** `https://`, a host, a path and, when there is one, a query: the form
      of every example, all of which are on `example.org`. */
  function OnHost(host: string, path: string, query: string): string
  {
    "https://" + host + path + WithPart("", '?', query)
  }

  /** An example URL as `urlunsplit` writes it. */
  lemma ExampleIn(host: string, path: string, query: string)
    requires host != "" && path != "" && path[0] == '/'
    ensures Urlunsplit("https", host, path, query, "") == OnHost(host, path, query)
  {
    assert PlacedPath("https", host, path) == path;
    WithPartAfter("https://" + host + path, "", '?', query);
    assert "https" + ":" + ("//" + host + path) == "https://" + host + path + "";
  }

  /** A canonical example URL as `urlunsplit` writes it. */
  lemma ExampleOut(host: string, cleaned: string, query: string)
    requires host != "" && (cleaned == "" || cleaned[0] != '/')
    ensures Urlunsplit("https", host, if cleaned == "" then "/" else cleaned, query, "")
         == OnHost(host, "/" + cleaned, query)
  {
    var path := if cleaned == "" then "/" else cleaned;
    if cleaned == "" {
      EmptyAfterSlash();
    }
    assert PlacedPath("https", host, path) == PlacedPath("https", host, "/" + cleaned);
    UnsplitPlaced("https", host, path, "/" + cleaned, query, "");
    ExampleIn(host, "/" + cleaned, query);
  }

  /** Behind a network location, `urlunsplit` sees the path only as it
      places it. */
  lemma UnsplitPlaced(scheme: string, netloc: string, url: string, other: string, query: string, fragment: string)
    requires netloc != "" && PlacedPath(scheme, netloc, url) == PlacedPath(scheme, netloc, other)
    ensures Urlunsplit(scheme, netloc, url, query, fragment) == Urlunsplit(scheme, netloc, other, query, fragment)
  {
  }

  /** `https://example.org`, where every example lives, is an origin the
      lemmas below apply to. */
  lemma ExampleOrigin()
    ensures Origin("https", "example.org")
  {
  }

  /** `path` is written as some pieces behind a root and cleans to
      `cleaned`. */
  ghost predicate Reduces(path: string, cleaned: string)
  {
    exists root, pieces :: Cleans(root, pieces, path, cleaned)
  }

  /** A URL on an `https` host whose path is cleaned to `cleaned`. */
  lemma OnSite(host: string, path: string, query: string, cleaned: string, out: string, feed: string)
    requires Origin("https", host) && PlainQuery(query) && Reduces(path, cleaned)
      && out == (if cleaned == "" then "/" else "/" + cleaned) && feed == FeedQuery(cleaned)
    ensures Sanitize(OnHost(host, path, query)) == OnHost(host, out, feed)
  {
    var root, pieces :| Cleans(root, pieces, path, cleaned);
    SanitizeOfPieces("https", host, root, pieces, query);
    ExampleIn(host, path, query);
    ExampleOut(host, cleaned, FeedQuery(cleaned));
    if cleaned == "" {
      EmptyAfterSlash();
    }
  }

  lemma EmptyAfterSlash()
    ensures "/" + "" == "/"
  {
  }

  /** A piece that `sanitize_url` drops: an empty one, or an unwanted
      component. */
  predicate Dropped(x: string)
  {
    x == "" || x in UnwantedUrlPathParts
  }

  lemma UnwantedPlain()
    ensures forall x :: x in UnwantedUrlPathParts ==> Plain(x)
  {
  }

  lemma DroppedPlain(pieces: seq<string>)
    requires forall k :: 0 <= k < |pieces| ==> Dropped(pieces[k])
    ensures forall k :: 0 <= k < |pieces| ==> Plain(pieces[k])
  {
    UnwantedPlain();
    assert Plain("");
  }

  /** Nothing is left of pieces that are all dropped. */
  lemma AllDropped(pieces: seq<string>)
    requires forall k :: 0 <= k < |pieces| ==> Dropped(pieces[k])
    ensures Without(DropTrivial(pieces), UnwantedUrlPathParts) == []
  {
    NoneKept(pieces, UnwantedUrlPathParts);
  }

  lemma NoneKept(pieces: seq<string>, drop: set<string>)
    requires forall k :: 0 <= k < |pieces| ==> pieces[k] == "" || pieces[k] in drop
    ensures Without(DropTrivial(pieces), drop) == []
  {
    var d := DropTrivial(pieces);
    var w := Without(d, drop);
    if w != [] {
      WithoutMembers(d, drop, w[0]);
    }
  }

  /** A join starts with its first part, when that is not empty. */
  lemma JoinFirst(parts: seq<string>)
    requires parts != [] && parts[0] != ""
    ensures Join('/', parts) != "" && Join('/', parts)[0] == parts[0][0]
  {
  }

  /** Pieces that are all dropped clean to nothing. */
  lemma OnlyDroppedCleans(root: string, tail: seq<string>)
    requires root == "/" || root == "//"
    requires tail != [] && (tail[0] != "" || |tail| == 1)
    requires forall k :: 0 <= k < |tail| ==> Dropped(tail[k])
    ensures Cleans(root, tail, root + Join('/', tail), "")
  {
    OnlyDroppedRooted(root, tail);
    AllDropped(tail);
    JoinNone();
  }

  lemma OnlyDroppedRooted(root: string, tail: seq<string>)
    requires root == "/" || root == "//"
    requires tail != [] && (tail[0] != "" || |tail| == 1)
    requires forall k :: 0 <= k < |tail| ==> Dropped(tail[k])
    ensures Rooted(root, tail)
  {
    DroppedPlain(tail);
    if tail[0] != "" {
      JoinFirst(tail);
    } else {
      JoinOne(tail[0]);
    }
  }

  lemma JoinNone()
    ensures Join('/', []) == ""
  {
  }

  lemma JoinOne(part: string)
    ensures Join('/', [part]) == part
  {
  }

  /** A sub-folder followed by dropped pieces cleans to the sub-folder. */
  lemma InSubfolderCleans(sub: string, tail: seq<string>)
    requires Plain(sub) && sub != "" && sub != "." && sub !in UnwantedUrlPathParts
    requires forall k :: 0 <= k < |tail| ==> Dropped(tail[k])
    ensures Cleans("/", [sub] + tail, "/" + Join('/', [sub] + tail), sub)
  {
    InSubfolderRooted(sub, tail);
    InSubfolderKeeps(sub, tail);
    JoinOne(sub);
  }

  lemma InSubfolderRooted(sub: string, tail: seq<string>)
    requires Plain(sub) && sub != ""
    requires forall k :: 0 <= k < |tail| ==> Dropped(tail[k])
    ensures Rooted("/", [sub] + tail)
  {
    var pieces := [sub] + tail;
    DroppedPlain(tail);
    forall k | 0 <= k < |pieces|
      ensures Plain(pieces[k])
    {
      if k > 0 {
        assert pieces[k] == tail[k - 1];
      }
    }
    JoinFirst(pieces);
  }

  lemma InSubfolderKeeps(sub: string, tail: seq<string>)
    requires sub != "" && sub != "." && sub !in UnwantedUrlPathParts
    requires forall k :: 0 <= k < |tail| ==> Dropped(tail[k])
    ensures Without(DropTrivial([sub] + tail), UnwantedUrlPathParts) == [sub]
  {
    FirstKept(sub, tail, UnwantedUrlPathParts);
  }

  lemma FirstKept(sub: string, tail: seq<string>, drop: set<string>)
    requires sub != "" && sub != "." && sub !in drop
    requires forall k :: 0 <= k < |tail| ==> tail[k] == "" || tail[k] in drop
    ensures Without(DropTrivial([sub] + tail), drop) == [sub]
  {
    var pieces := [sub] + tail;
    assert pieces[1..] == tail;
    assert DropTrivial(pieces) == [sub] + DropTrivial(tail);
    NoneKept(tail, drop);
    assert ([sub] + DropTrivial(tail))[1..] == DropTrivial(tail);
  }

  // Standard (sync.py:37-48)

  /** The site root, whatever its query: sync.py:37-40, 75-76 for a query with a stray `?`, and 85-86 for a search query. */
  lemma SiteRoot(host: string, query: string)
    requires Origin("https", host) && PlainQuery(query)
    ensures Sanitize(OnHost(host, "/", query)) == OnHost(host, "/", "do=rss")
  {
    SiteRootPath();
    RootOut();
    OnSite(host, "/", query, "", "/", "do=rss");
  }

  lemma SiteRootPath()
    ensures Reduces("/", "")
  {
    assert Cleans("/", [""], "/" + Join('/', [""]), "") by {
      assert Dropped("");
      OnlyDroppedCleans("/", [""]);
    }
    SiteRootSpelled();
  }

  lemma RootOut()
    ensures "/" == (if "" == "" then "/" else "/" + "")
    ensures "do=rss" == FeedQuery("")
  {
    EmptyAfterSlash();
  }

  lemma SiteRootSpelled()
    ensures "/" + Join('/', [""]) == "/"
  {
    assert Join('/', [""]) == "";
  }

  /** `/feed/atom`, whatever its query: sync.py:41-42. */
  lemma FeedAtom(host: string, query: string)
    requires Origin("https", host) && PlainQuery(query)
    ensures Sanitize(OnHost(host, "/feed/atom", query)) == OnHost(host, "/", "do=rss")
  {
    FeedAtomPath();
    RootOut();
    OnSite(host, "/feed/atom", query, "", "/", "do=rss");
  }

  lemma FeedAtomPath()
    ensures Reduces("/feed/atom", "")
  {
    assert Cleans("/", ["feed", "atom"], "/" + Join('/', ["feed", "atom"]), "") by {
      assert Dropped("feed") && Dropped("atom");
      OnlyDroppedCleans("/", ["feed", "atom"]);
    }
    FeedAtomSpelled();
  }

  lemma FeedAtomSpelled()
    ensures "/" + Join('/', ["feed", "atom"]) == "/feed/atom"
  {
    assert Join('/', ["feed", "atom"]) == "feed" + "/" + "atom";
  }

  /** `/feed/rss`, whatever its query: sync.py:43-48. */
  lemma FeedRss(host: string, query: string)
    requires Origin("https", host) && PlainQuery(query)
    ensures Sanitize(OnHost(host, "/feed/rss", query)) == OnHost(host, "/", "do=rss")
  {
    FeedRssPath();
    RootOut();
    OnSite(host, "/feed/rss", query, "", "/", "do=rss");
  }

  lemma FeedRssPath()
    ensures Reduces("/feed/rss", "")
  {
    assert Cleans("/", ["feed", "rss"], "/" + Join('/', ["feed", "rss"]), "") by {
      assert Dropped("feed") && Dropped("rss");
      OnlyDroppedCleans("/", ["feed", "rss"]);
    }
    FeedRssSpelled();
  }

  lemma FeedRssSpelled()
    ensures "/" + Join('/', ["feed", "rss"]) == "/feed/rss"
  {
    assert Join('/', ["feed", "rss"]) == "feed" + "/" + "rss";
  }

  // Subfolder (sync.py:50-62)

  /** A sub-folder with a trailing slash, whatever its query: sync.py:51-54. */
  lemma Subfolder(host: string, query: string)
    requires Origin("https", host) && PlainQuery(query)
    ensures Sanitize(OnHost(host, "/shaarli/", query)) == OnHost(host, "/shaarli", "do=rss")
  {
    SubfolderPath();
    SubfolderOut();
    OnSite(host, "/shaarli/", query, "shaarli", "/shaarli", "do=rss");
  }

  lemma SubfolderPath()
    ensures Reduces("/shaarli/", "shaarli")
  {
    assert Cleans("/", ["shaarli"] + [""], "/" + Join('/', ["shaarli"] + [""]), "shaarli") by {
      assert Plain("shaarli") && "shaarli" !in UnwantedUrlPathParts;
      assert Dropped("");
      InSubfolderCleans("shaarli", [""]);
    }
    SubfolderSpelled();
  }

  lemma SubfolderOut()
    ensures "/shaarli" == (if "shaarli" == "" then "/" else "/" + "shaarli")
    ensures "do=rss" == FeedQuery("shaarli")
  {
    assert "/shaarli" == "/" + "shaarli";
  }

  lemma SubfolderSpelled()
    ensures "/" + Join('/', ["shaarli"] + [""]) == "/shaarli/"
  {
    assert ["shaarli"] + [""] == ["shaarli", ""];
    assert Join('/', ["shaarli", ""]) == "shaarli" + "/" + "";
  }

  /** `feed/atom` in a sub-folder, whatever its query: sync.py:55-56. */
  lemma SubfolderFeedAtom(host: string, query: string)
    requires Origin("https", host) && PlainQuery(query)
    ensures Sanitize(OnHost(host, "/shaarli/feed/atom", query)) == OnHost(host, "/shaarli", "do=rss")
  {
    SubfolderFeedAtomPath();
    SubfolderOut();
    OnSite(host, "/shaarli/feed/atom", query, "shaarli", "/shaarli", "do=rss");
  }

  lemma SubfolderFeedAtomPath()
    ensures Reduces("/shaarli/feed/atom", "shaarli")
  {
    assert Cleans("/", ["shaarli"] + ["feed", "atom"], "/" + Join('/', ["shaarli"] + ["feed", "atom"]), "shaarli") by {
      assert Plain("shaarli") && "shaarli" !in UnwantedUrlPathParts;
      assert Dropped("feed") && Dropped("atom");
      InSubfolderCleans("shaarli", ["feed", "atom"]);
    }
    SubfolderFeedSpelled("atom");
    assert "/shaarli/feed/" + "atom" == "/shaarli/feed/atom";
  }

  /** The spelling of `/shaarli/feed/` followed by one more component. */
  lemma SubfolderFeedSpelled(last: string)
    ensures "/" + Join('/', ["shaarli"] + ["feed", last]) == "/shaarli/feed/" + last
  {
    assert ["shaarli"] + ["feed", last] == ["shaarli", "feed", last];
    assert Join('/', [last]) == last;
    assert Join('/', ["feed", last]) == "feed" + "/" + last by {
      assert ["feed", last][1..] == [last];
    }
    assert ["shaarli", "feed", last][1..] == ["feed", last];
    assert Join('/', ["shaarli", "feed", last]) == "shaarli" + "/" + "feed" + "/" + last;
  }

  /** `feed/rss` in a sub-folder, whatever its query: sync.py:57-62. */
  lemma SubfolderFeedRss(host: string, query: string)
    requires Origin("https", host) && PlainQuery(query)
    ensures Sanitize(OnHost(host, "/shaarli/feed/rss", query)) == OnHost(host, "/shaarli", "do=rss")
  {
    SubfolderFeedRssPath();
    SubfolderOut();
    OnSite(host, "/shaarli/feed/rss", query, "shaarli", "/shaarli", "do=rss");
  }

  lemma SubfolderFeedRssPath()
    ensures Reduces("/shaarli/feed/rss", "shaarli")
  {
    assert Cleans("/", ["shaarli"] + ["feed", "rss"], "/" + Join('/', ["shaarli"] + ["feed", "rss"]), "shaarli") by {
      assert Plain("shaarli") && "shaarli" !in UnwantedUrlPathParts;
      assert Dropped("feed") && Dropped("rss");
      InSubfolderCleans("shaarli", ["feed", "rss"]);
    }
    SubfolderFeedSpelled("rss");
    assert "/shaarli/feed/" + "rss" == "/shaarli/feed/rss";
  }

  // BlogoText / oText (sync.py:64-66)

  /** The oText feed keeps its path and gets the oText query, whatever its query was: sync.py:65-66. */
  lemma OTextFeed(host: string, query: string)
    requires Origin("https", host) && PlainQuery(query)
    ensures Sanitize(OnHost(host, "/rss.php", query)) == OnHost(host, "/rss.php", "mode=links&do=rss")
  {
    OTextFeedPath();
    OTextFeedOut();
    OnSite(host, "/rss.php", query, "rss.php", "/rss.php", "mode=links&do=rss");
  }

  lemma OTextFeedPath()
    ensures Reduces("/rss.php", "rss.php")
  {
    assert Cleans("/", ["rss.php"] + [], "/" + Join('/', ["rss.php"] + []), "rss.php") by {
      assert Plain("rss.php") && "rss.php" !in UnwantedUrlPathParts;
      InSubfolderCleans("rss.php", []);
    }
    OTextFeedSpelled();
  }

  lemma OTextFeedOut()
    ensures "/rss.php" == (if "rss.php" == "" then "/" else "/" + "rss.php")
    ensures "mode=links&do=rss" == FeedQuery("rss.php")
  {
    assert "/rss.php" == "/" + "rss.php";
  }

  lemma OTextFeedSpelled()
    ensures "/" + Join('/', ["rss.php"] + []) == "/rss.php"
  {
    assert ["rss.php"] + [] == ["rss.php"];
    assert Join('/', ["rss.php"]) == "rss.php";
  }

  // Weird (sync.py:68-88)

  /** A root written as two slashes: sync.py:71-72. */
  lemma DoubleSlashRoot(host: string, query: string)
    requires Origin("https", host) && PlainQuery(query)
    ensures Sanitize(OnHost(host, "//", query)) == OnHost(host, "/", "do=rss")
  {
    DoubleSlashRootPath();
    RootOut();
    OnSite(host, "//", query, "", "/", "do=rss");
  }

  lemma DoubleSlashRootPath()
    ensures Reduces("//", "")
  {
    assert Cleans("//", [""], "//" + Join('/', [""]), "") by {
      assert Dropped("");
      OnlyDroppedCleans("//", [""]);
    }
    DoubleSlashRootSpelled();
  }

  lemma DoubleSlashRootSpelled()
    ensures "//" + Join('/', [""]) == "//"
  {
    assert Join('/', [""]) == "";
  }

  /** `feed` behind two slashes: sync.py:73-74. */
  lemma DoubleSlashFeed(host: string, query: string)
    requires Origin("https", host) && PlainQuery(query)
    ensures Sanitize(OnHost(host, "//feed", query)) == OnHost(host, "/", "do=rss")
  {
    DoubleSlashFeedPath();
    RootOut();
    OnSite(host, "//feed", query, "", "/", "do=rss");
  }

  lemma DoubleSlashFeedPath()
    ensures Reduces("//feed", "")
  {
    assert Cleans("//", ["feed"], "//" + Join('/', ["feed"]), "") by {
      assert Dropped("feed");
      OnlyDroppedCleans("//", ["feed"]);
    }
    DoubleSlashFeedSpelled();
  }

  lemma DoubleSlashFeedSpelled()
    ensures "//" + Join('/', ["feed"]) == "//feed"
  {
    assert Join('/', ["feed"]) == "feed";
  }

  /** `index.php`, whatever its query: sync.py:77-78. */
  lemma IndexPhp(host: string, query: string)
    requires Origin("https", host) && PlainQuery(query)
    ensures Sanitize(OnHost(host, "/index.php", query)) == OnHost(host, "/", "do=rss")
  {
    IndexPhpPath();
    RootOut();
    OnSite(host, "/index.php", query, "", "/", "do=rss");
  }

  lemma IndexPhpPath()
    ensures Reduces("/index.php", "")
  {
    assert Cleans("/", ["index.php"], "/" + Join('/', ["index.php"]), "") by {
      assert Dropped("index.php");
      OnlyDroppedCleans("/", ["index.php"]);
    }
    IndexPhpSpelled();
  }

  lemma IndexPhpSpelled()
    ensures "/" + Join('/', ["index.php"]) == "/index.php"
  {
    assert Join('/', ["index.php"]) == "index.php";
  }

  /** `index.php5`, whatever its query: sync.py:79-80. */
  lemma IndexPhp5(host: string, query: string)
    requires Origin("https", host) && PlainQuery(query)
    ensures Sanitize(OnHost(host, "/index.php5", query)) == OnHost(host, "/", "do=rss")
  {
    IndexPhp5Path();
    RootOut();
    OnSite(host, "/index.php5", query, "", "/", "do=rss");
  }

  lemma IndexPhp5Path()
    ensures Reduces("/index.php5", "")
  {
    assert Cleans("/", ["index.php5"], "/" + Join('/', ["index.php5"]), "") by {
      assert Dropped("index.php5");
      OnlyDroppedCleans("/", ["index.php5"]);
    }
    IndexPhp5Spelled();
  }

  lemma IndexPhp5Spelled()
    ensures "/" + Join('/', ["index.php5"]) == "/index.php5"
  {
    assert Join('/', ["index.php5"]) == "index.php5";
  }

  /** `feed/feed/rss` in a sub-folder: every `feed` goes, so the code gives the sub-folder alone, not the `shaarli/feed` of the docstring at sync.py:81-82. */
  lemma SubfolderFeedFeedRss(host: string, query: string)
    requires Origin("https", host) && PlainQuery(query)
    ensures Sanitize(OnHost(host, "/shaarli/feed/feed/rss", query)) == OnHost(host, "/shaarli", "do=rss")
  {
    SubfolderFeedFeedRssPath();
    SubfolderOut();
    OnSite(host, "/shaarli/feed/feed/rss", query, "shaarli", "/shaarli", "do=rss");
  }

  lemma SubfolderFeedFeedRssPath()
    ensures Reduces("/shaarli/feed/feed/rss", "shaarli")
  {
    assert Cleans("/", ["shaarli"] + ["feed", "feed", "rss"], "/" + Join('/', ["shaarli"] + ["feed", "feed", "rss"]), "shaarli") by {
      assert Plain("shaarli") && "shaarli" !in UnwantedUrlPathParts;
      assert Dropped("feed") && Dropped("feed") && Dropped("rss");
      InSubfolderCleans("shaarli", ["feed", "feed", "rss"]);
    }
    SubfolderFeedFeedRssSpelled();
  }

  lemma SubfolderFeedFeedRssSpelled()
    ensures "/" + Join('/', ["shaarli"] + ["feed", "feed", "rss"]) == "/shaarli/feed/feed/rss"
  {
    assert ["shaarli"] + ["feed", "feed", "rss"] == ["shaarli", "feed", "feed", "rss"];
    assert Join('/', ["shaarli", "feed", "feed", "rss"]) == "shaarli" + "/" + "feed" + "/" + "feed" + "/" + "rss";
  }

  /** `rss.xml`, whatever its query: sync.py:83-84. */
  lemma RssXml(host: string, query: string)
    requires Origin("https", host) && PlainQuery(query)
    ensures Sanitize(OnHost(host, "/rss.xml", query)) == OnHost(host, "/", "do=rss")
  {
    RssXmlPath();
    RootOut();
    OnSite(host, "/rss.xml", query, "", "/", "do=rss");
  }

  lemma RssXmlPath()
    ensures Reduces("/rss.xml", "")
  {
    assert Cleans("/", ["rss.xml"], "/" + Join('/', ["rss.xml"]), "") by {
      assert Dropped("rss.xml");
      OnlyDroppedCleans("/", ["rss.xml"]);
    }
    RssXmlSpelled();
  }

  lemma RssXmlSpelled()
    ensures "/" + Join('/', ["rss.xml"]) == "/rss.xml"
  {
    assert Join('/', ["rss.xml"]) == "rss.xml";
  }

  /** A component that only ends in `.atom` stays, whatever the query: sync.py:87-88. */
  lemma CarnetAtom(host: string, query: string)
    requires Origin("https", host) && PlainQuery(query)
    ensures Sanitize(OnHost(host, "/carnet.atom", query)) == OnHost(host, "/carnet.atom", "do=rss")
  {
    CarnetAtomPath();
    CarnetAtomOut();
    OnSite(host, "/carnet.atom", query, "carnet.atom", "/carnet.atom", "do=rss");
  }

  lemma CarnetAtomPath()
    ensures Reduces("/carnet.atom", "carnet.atom")
  {
    assert Cleans("/", ["carnet.atom"] + [], "/" + Join('/', ["carnet.atom"] + []), "carnet.atom") by {
      assert Plain("carnet.atom") && "carnet.atom" !in UnwantedUrlPathParts;
      InSubfolderCleans("carnet.atom", []);
    }
    CarnetAtomSpelled();
  }

  lemma CarnetAtomOut()
    ensures "/carnet.atom" == (if "carnet.atom" == "" then "/" else "/" + "carnet.atom")
    ensures "do=rss" == FeedQuery("carnet.atom")
  {
    assert "/carnet.atom" == "/" + "carnet.atom";
  }

  lemma CarnetAtomSpelled()
    ensures "/" + Join('/', ["carnet.atom"] + []) == "/carnet.atom"
  {
    assert ["carnet.atom"] + [] == ["carnet.atom"];
    assert Join('/', ["carnet.atom"]) == "carnet.atom";
  }


  /** The empty URL stays empty: sync.py:69-70. */
  lemma EmptyUrl()
    ensures Sanitize("") == ""
  {
  }
}
