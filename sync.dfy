/** The feed-URL canonicaliser `sanitize_url` and the reconciliation that
    `main` runs over the canonical URL sets (sync.py). */
module Sync {
  import opened PyStr
  import opened Pathlib
  import opened UrlParse

  /** `UNWANTED_URL_PATH_PARTS`: path components that only decorate a feed
      URL and are dropped wherever they occur. */
  const UnwantedUrlPathParts: set<string> :=
    {"atom", "feed", "index.html", "index.php", "index.php5", "rss", "rss.xml"}

  /** The query of a canonical URL: the BlogoText / oText form for a path
      ending in `rss.php`, the Shaarli form otherwise. */
  const OTextQuery := "mode=links&do=rss"
  const ShaarliQuery := "do=rss"

  // ---------------------------------------------------------------------
  // Removing path components
  // ---------------------------------------------------------------------

  /** `parts` without any element of `drop`, the others in their order. */
  function Without(parts: seq<string>, drop: set<string>): (r: seq<string>)
    ensures |r| <= |parts|
  {
    if parts == [] then []
    else if parts[0] in drop then Without(parts[1..], drop)
    else [parts[0]] + Without(parts[1..], drop)
  }

  /** `i` is the index of the first occurrence of `x` in `parts`. */
  predicate FirstAt(parts: seq<string>, x: string, i: int)
  {
    0 <= i < |parts| && parts[i] == x && x !in parts[..i]
  }

  /** `list.remove(x)`: the first occurrence of `x` is taken out and the
      other elements keep their order. */
  function RemoveFirst(parts: seq<string>, x: string): (r: seq<string>)
    requires x in parts
    ensures |r| == |parts| - 1
    ensures multiset(r) == multiset(parts) - multiset{x}
    ensures exists i :: FirstAt(parts, x, i) && r == parts[..i] + parts[i + 1..]
  {
    assert parts == [parts[0]] + parts[1..];
    if parts[0] == x then
      assert FirstAt(parts, x, 0);
      parts[1..]
    else
      var rest := RemoveFirst(parts[1..], x);
      var j :| FirstAt(parts[1..], x, j) && rest == parts[1..][..j] + parts[1..][j + 1..];
      FirstAtCons(parts, x, j);
      [parts[0]] + rest
  }

  /** An occurrence found first in the tail, behind a different head, is
      the first occurrence in the whole list. */
  lemma FirstAtCons(parts: seq<string>, x: string, j: int)
    requires parts != [] && parts[0] != x && FirstAt(parts[1..], x, j)
    ensures FirstAt(parts, x, j + 1)
    ensures parts[..j + 1] + parts[j + 2..] == [parts[0]] + (parts[1..][..j] + parts[1..][j + 1..])
  {
    assert parts[..j + 1] == [parts[0]] + parts[1..][..j];
    assert parts[j + 2..] == parts[1..][j + 1..];
  }

  /** An element survives `Without` exactly when it was there and is not
      dropped. */
  lemma {:induction false} WithoutMembers(parts: seq<string>, drop: set<string>, x: string)
    ensures x in Without(parts, drop) <==> x in parts && x !in drop
  {
    if parts != [] {
      WithoutMembers(parts[1..], drop, x);
      assert parts == [parts[0]] + parts[1..];
    }
  }

  /** `Without` works element by element: it distributes over
      concatenation, so the kept elements stay in their relative order. */
  lemma {:induction false} WithoutAppend(a: seq<string>, b: seq<string>, drop: set<string>)
    ensures Without(a + b, drop) == Without(a, drop) + Without(b, drop)
  {
    if a != [] {
      assert (a + b)[1..] == a[1..] + b;
      WithoutAppend(a[1..], b, drop);
    } else {
      assert a + b == b;
    }
  }

  /** Dropping two sets one after the other drops their union. */
  lemma {:induction false} WithoutTwice(parts: seq<string>, first: set<string>, second: set<string>)
    ensures Without(Without(parts, first), second) == Without(parts, first + second)
  {
    if parts != [] {
      WithoutTwice(parts[1..], first, second);
    }
  }

  /** Dropping the same set a second time changes nothing. */
  lemma WithoutIdempotent(parts: seq<string>, drop: set<string>)
    ensures Without(Without(parts, drop), drop) == Without(parts, drop)
  {
    WithoutTwice(parts, drop, drop);
    assert drop + drop == drop;
  }

  /** A list none of whose elements is dropped is kept whole. */
  lemma {:induction false} WithoutNothing(parts: seq<string>, drop: set<string>)
    requires forall k :: 0 <= k < |parts| ==> parts[k] !in drop
    ensures Without(parts, drop) == parts
  {
    if parts != [] {
      WithoutNothing(parts[1..], drop);
    }
  }

  /** Taking out one dropped element first does not change what is kept. */
  lemma {:induction false} WithoutRemoveFirst(parts: seq<string>, x: string, drop: set<string>)
    requires x in parts && x in drop
    ensures Without(RemoveFirst(parts, x), drop) == Without(parts, drop)
  {
    if parts[0] != x {
      WithoutRemoveFirst(parts[1..], x, drop);
    }
  }

  lemma {:induction false} WithoutSegments(parts: seq<string>, drop: set<string>)
    requires forall k :: 0 <= k < |parts| ==> IsSegment(parts[k])
    ensures forall k :: 0 <= k < |Without(parts, drop)| ==> IsSegment(Without(parts, drop)[k])
  {
    forall k | 0 <= k < |Without(parts, drop)|
      ensures IsSegment(Without(parts, drop)[k])
    {
      WithoutMembers(parts, drop, Without(parts, drop)[k]);
    }
  }

  // ---------------------------------------------------------------------
  // The canonicaliser
  // ---------------------------------------------------------------------

  /** The path `sanitize_url` keeps: the components of `path` that are not
      unwanted, joined by `/`, with no anchor and no slash at either end. */
  function CleanPath(path: string): (r: string)
    ensures r == Join('/', Without(Segments(path), UnwantedUrlPathParts))
  {
    var kept := Without(Parts(path), UnwantedUrlPathParts);
    CleanPathDropsAnchor(path);
    Strip(Join('/', kept), '/')
  }

  /** The anchor is never unwanted, and stripping the slashes off the join
      removes it again. */
  lemma CleanPathDropsAnchor(path: string)
    ensures Strip(Join('/', Without(Parts(path), UnwantedUrlPathParts)), '/')
         == Join('/', Without(Segments(path), UnwantedUrlPathParts))
  {
    var root := Root(path);
    var segments := Segments(path);
    var kept := Without(segments, UnwantedUrlPathParts);
    WithoutSegments(segments, UnwantedUrlPathParts);
    if root == "" {
      assert Parts(path) == segments;
      StripJoin(kept);
    } else {
      assert Parts(path) == [root] + segments;
      assert root !in UnwantedUrlPathParts;
      WithoutAppend([root], segments, UnwantedUrlPathParts);
      assert Without([root], UnwantedUrlPathParts) == [root];
      StripAnchoredJoin(root, kept);
    }
  }

  /** A join of components has no slash to strip. */
  lemma StripJoin(parts: seq<string>)
    requires forall k :: 0 <= k < |parts| ==> IsSegment(parts[k])
    ensures Strip(Join('/', parts), '/') == Join('/', parts)
  {
    var joined := Join('/', parts);
    JoinShape(parts);
    RStripKeeps(joined, '/');
    LStripKeeps(joined, '/');
  }

  /** Stripping the slashes off an anchored join leaves the join of the
      components. */
  lemma StripAnchoredJoin(root: string, parts: seq<string>)
    requires root == "/" || root == "//"
    requires forall k :: 0 <= k < |parts| ==> IsSegment(parts[k])
    ensures Strip(Join('/', [root] + parts), '/') == Join('/', parts)
  {
    if parts == [] {
      assert [root] + parts == [root];
      SlashesStrip(root);
    } else {
      var joined := Join('/', parts);
      JoinShape(parts);
      JoinCons('/', root, parts);
      RootSlashStrip(root, joined);
    }
  }

  lemma RootSlashStrip(root: string, joined: string)
    requires root == "/" || root == "//"
    requires joined != [] && joined[0] != '/' && joined[|joined| - 1] != '/'
    ensures Strip((root + "/") + joined, '/') == joined
  {
    var slashes := root + "/";
    assert forall k :: 0 <= k < |slashes| ==> slashes[k] == '/';
    StripSlashesBefore(slashes, joined);
  }

  lemma StripSlashesBefore(slashes: string, s: string)
    requires forall k :: 0 <= k < |slashes| ==> slashes[k] == '/'
    requires s != [] && s[0] != '/' && s[|s| - 1] != '/'
    ensures Strip(slashes + s, '/') == s
  {
    assert RStrip(slashes + s, '/') == slashes + s by {
      assert (slashes + s)[|slashes + s| - 1] == s[|s| - 1];
      RStripKeeps(slashes + s, '/');
    }
    SlashesLStrip(slashes, s);
  }

  lemma RStripKeeps(s: string, c: char)
    requires s == [] || s[|s| - 1] != c
    ensures RStrip(s, c) == s
  {
  }

  lemma LStripKeeps(s: string, c: char)
    requires s == [] || s[0] != c
    ensures LStrip(s, c) == s
  {
  }

  /** Stripping slashes off the anchor alone leaves nothing. */
  lemma SlashesStrip(root: string)
    requires root == "/" || root == "//"
    ensures Strip(root, '/') == ""
  {
    AllSlashesRStrip(root);
  }

  lemma {:induction false} AllSlashesRStrip(slashes: string)
    requires forall k :: 0 <= k < |slashes| ==> slashes[k] == '/'
    ensures RStrip(slashes, '/') == ""
    decreases |slashes|
  {
    if slashes != [] {
      AllSlashesRStrip(slashes[..|slashes| - 1]);
    }
  }

  /** A run of leading slashes is stripped up to the first other character. */
  lemma {:induction false} SlashesLStrip(slashes: string, s: string)
    requires forall k :: 0 <= k < |slashes| ==> slashes[k] == '/'
    requires s == [] || s[0] != '/'
    ensures LStrip(slashes + s, '/') == s
    decreases |slashes|
  {
    if slashes == [] {
      assert slashes + s == s;
    } else {
      assert (slashes + s)[1..] == slashes[1..] + s;
      SlashesLStrip(slashes[1..], s);
    }
  }

  /** The query `sanitize_url` puts in for a cleaned path. */
  function FeedQuery(path: string): (q: string)
    ensures q == OTextQuery || q == ShaarliQuery
  {
    if EndsWith(path, "rss.php") then OTextQuery else ShaarliQuery
  }

  /** `parts._replace(path=path or "/", query=query)`: the components that
      `sanitize_url` puts back together. Only the path and the query are
      replaced; the path keeps exactly the components that are not unwanted,
      in their order; the query depends on nothing but that path. */
  function Canonicalize(parts: Url): (r: Url)
    ensures r.scheme == parts.scheme && r.netloc == parts.netloc
    ensures r.params == parts.params && r.fragment == parts.fragment
    ensures Segments(r.path) == Without(Segments(parts.path), UnwantedUrlPathParts)
    ensures r.path == "/" <==> Without(Segments(parts.path), UnwantedUrlPathParts) == []
    ensures r.path != "/" ==> r.path != "" && r.path[0] != '/' && r.path[|r.path| - 1] != '/'
    ensures r.query == (if EndsWith(r.path, "rss.php") then OTextQuery else ShaarliQuery)
  {
    var path := CleanPath(parts.path);
    WithoutSegments(Segments(parts.path), UnwantedUrlPathParts);
    RootedJoin(Without(Segments(parts.path), UnwantedUrlPathParts));
    parts.(path := if path == "" then "/" else path, query := FeedQuery(path))
  }

  /** A join of components, or `/` when there are none, splits back into
      those components and has no slash at either end unless it is `/`. */
  lemma RootedJoin(parts: seq<string>)
    requires forall k :: 0 <= k < |parts| ==> IsSegment(parts[k])
    ensures var joined := Join('/', parts);
      var path := if joined == "" then "/" else joined;
      && Segments(path) == parts
      && (path == "/" <==> parts == [])
      && (path != "/" ==> path != "" && path[0] != '/' && path[|path| - 1] != '/')
  {
    var joined := Join('/', parts);
    JoinShape(parts);
    SegmentsOfJoin(parts, if joined == "" then "/" else "");
    if joined == "" {
      assert "/" == "/" + joined;
    }
  }

  /** `sanitize_url(url)`: the empty string stays empty, every other URL is
      parsed, canonicalised and put back together, and is never empty. */
  function Sanitize(url: string): (r: string)
    ensures r == "" <==> url == ""
  {
    if url == "" then "" else Urlunparse(Canonicalize(Urlparse(url)))
  }

  /** The loop of `sanitize_url` that cuts the list of path components
      down in place: a `for` over the set of unwanted components with a
      `while ... remove` inside it. Python does not fix the order in which a
      set of strings is iterated, so that order is a parameter; what is left
      does not depend on it. */
  method DropUnwanted(parts: seq<string>, order: seq<string>) returns (path: seq<string>)
    requires forall x :: x in order <==> x in UnwantedUrlPathParts
    ensures path == Without(parts, UnwantedUrlPathParts)
  {
    path := parts;
    ghost var done: set<string> := {};
    WithoutNothing(parts, done);
    for i := 0 to |order|
      invariant done <= UnwantedUrlPathParts
      invariant forall k :: 0 <= k < i ==> order[k] in done
      invariant path == Without(parts, done)
    {
      var unwanted := order[i];
      WithoutTwice(parts, done, {unwanted});
      while unwanted in path
        invariant Without(path, {unwanted}) == Without(parts, done + {unwanted})
        decreases |path|
      {
        WithoutRemoveFirst(path, unwanted, {unwanted});
        path := RemoveFirst(path, unwanted);
      }
      WithoutNothing(path, {unwanted});
      done := done + {unwanted};
    }
    assert done == UnwantedUrlPathParts by {
      forall x | x in UnwantedUrlPathParts ensures x in done {
        var k :| 0 <= k < |order| && order[k] == x;
      }
    }
  }

  /** `sanitize_url` step by step as the source writes it. */
  method SanitizeUrl(url: string, order: seq<string>) returns (r: string)
    requires forall x :: x in order <==> x in UnwantedUrlPathParts
    ensures r == Sanitize(url)
  {
    if url == "" {
      return "";
    }
    var parts := Urlparse(url);
    var path := DropUnwanted(Parts(parts.path), order);
    var cleaned := Strip(Join('/', path), '/');
    var query := if EndsWith(cleaned, "rss.php") then OTextQuery else ShaarliQuery;
    r := Urlunparse(parts.(path := if cleaned == "" then "/" else cleaned, query := query));
  }

  /** `{sanitize_url(url) for url in urls}`, the set every loader returns.
      The empty string is in it only when it was among the raw URLs. */
  function SanitizeAll(urls: seq<string>): (r: set<string>)
    ensures "" in r <==> "" in urls
  {
    set u | u in urls :: Sanitize(u)
  }

  // ---------------------------------------------------------------------
  // Reconciliation (`main`)
  // ---------------------------------------------------------------------

  /** The two scheme-swapped spellings `main` checks against the current
      feeds: `str.replace`, which rewrites every occurrence. */
  function AsHttps(u: string): string { Replace(u, "http:", "https:") }
  function AsHttp(u: string): string { Replace(u, "https:", "http:") }

  /** Whether `main` reports a URL of `new - current - bad`: it is not
      empty and neither scheme-swapped spelling is already current. */
  predicate Reportable(current: set<string>, u: string)
  {
    u != "" && AsHttps(u) !in current && AsHttp(u) !in current
  }

  /** The URLs `main` reports. */
  function NewFeeds(current: set<string>, found: set<string>, bad: set<string>): (r: set<string>)
    ensures r <= found - current - bad && "" !in r
  {
    set u | u in found - current - bad && Reportable(current, u)
  }

  /** A feed already followed over `https` is not reported again over
      `http`, as long as the rest of its URL holds no other `http:`. */
  lemma HttpTwinSkipped(current: set<string>, found: set<string>, bad: set<string>, rest: string)
    requires !Occurs(rest, "http:") && "https:" + rest in current
    ensures "http:" + rest !in NewFeeds(current, found, bad)
  {
    ReplaceLeading(rest, "http:", "https:");
    ReplaceAbsent(rest, "http:", "https:");
  }

  /** A feed already followed over `http` is not reported again over
      `https`, as long as the rest of its URL holds no other `https:`. */
  lemma HttpsTwinSkipped(current: set<string>, found: set<string>, bad: set<string>, rest: string)
    requires !Occurs(rest, "https:") && "http:" + rest in current
    ensures "https:" + rest !in NewFeeds(current, found, bad)
  {
    ReplaceLeading(rest, "https:", "http:");
    ReplaceAbsent(rest, "https:", "http:");
  }

  /** `new_feeds = get_manual_feeds()` and then `new_feeds.update(...)` for
      every remote source in turn. */
  method CollectFeeds(manual: set<string>, discovered: seq<set<string>>) returns (feeds: set<string>)
    ensures forall u :: u in feeds <==> u in manual || exists i :: 0 <= i < |discovered| && u in discovered[i]
  {
    feeds := manual;
    for i := 0 to |discovered|
      invariant forall u :: u in feeds <==> u in manual || exists j :: 0 <= j < i && u in discovered[j]
    {
      feeds := feeds + discovered[i];
    }
  }

  /** The loop at the end of `main`: every URL of `new - current - bad` is
      looked at once, in an order Python does not fix, and printed when it
      is reportable; `count` is the number printed. */
  method ReportNewFeeds(current: set<string>, found: set<string>, bad: set<string>)
    returns (printed: seq<string>, count: nat)
    ensures forall u :: u in printed <==> u in NewFeeds(current, found, bad)
    ensures forall i, j :: 0 <= i < j < |printed| ==> printed[i] != printed[j]
    ensures count == |printed| == |NewFeeds(current, found, bad)|
  {
    var diff := found - current - bad;
    var rest := diff;
    printed, count := [], 0;
    ghost var emitted: set<string> := {};
    while rest != {}
      invariant rest <= diff
      invariant forall u :: u in emitted <==> u in diff - rest && Reportable(current, u)
      invariant forall u :: u in printed <==> u in emitted
      invariant forall i, j :: 0 <= i < j < |printed| ==> printed[i] != printed[j]
      invariant count == |printed| == |emitted|
      decreases rest
    {
      var feedUrl :| feedUrl in rest;
      rest := rest - {feedUrl};
      if feedUrl != "" && AsHttps(feedUrl) !in current && AsHttp(feedUrl) !in current {
        assert feedUrl !in emitted;
        printed := printed + [feedUrl];
        count := count + 1;
        emitted := emitted + {feedUrl};
      }
    }
    assert emitted == NewFeeds(current, found, bad);
  }

  /** `main` without its I/O: the three local lists and the URL lists read
      from the remote sources are canonicalised, the manual and remote feeds
      are gathered, and the reportable ones are printed and counted. */
  method RunSync(currentUrls: seq<string>, manualUrls: seq<string>, badUrls: seq<string>,
                 remoteUrls: seq<seq<string>>)
    returns (printed: seq<string>, count: nat)
    ensures count == |printed|
    ensures forall i, j :: 0 <= i < j < |printed| ==> printed[i] != printed[j]
    ensures forall u :: u in printed <==>
      (u in SanitizeAll(manualUrls) || exists i :: 0 <= i < |remoteUrls| && u in SanitizeEach(remoteUrls)[i]) &&
      u !in SanitizeAll(currentUrls) && u !in SanitizeAll(badUrls) &&
      Reportable(SanitizeAll(currentUrls), u)
  {
    var current := SanitizeAll(currentUrls);
    var manual := SanitizeAll(manualUrls);
    var bad := SanitizeAll(badUrls);
    var found := CollectFeeds(manual, SanitizeEach(remoteUrls));
    printed, count := ReportNewFeeds(current, found, bad);
  }

  /** What every remote source yields once canonicalised, source by
      source. A source yields the empty string only when its raw list
      held one, which is why `main` tests `feed_url` before printing. */
  function SanitizeEach(sources: seq<seq<string>>): (r: seq<set<string>>)
    ensures |r| == |sources|
    ensures forall i :: 0 <= i < |sources| ==> r[i] == SanitizeAll(sources[i])
    ensures forall i :: 0 <= i < |sources| ==> ("" in r[i] <==> "" in sources[i])
  {
    seq(|sources|, i requires 0 <= i < |sources| => SanitizeAll(sources[i]))
  }

}
