# shaarlis feed synchronisation, modelled in Dafny

`sync.py` keeps a list of Shaarli feeds up to date. Every feed URL it reads
passes through `sanitize_url`:
- the URL is parsed with `urllib.parse.urlparse`;
- every path component in `UNWANTED_URL_PATH_PARTS` (`atom`, `feed`,
  `index.html`, `index.php`, `index.php5`, `rss`, `rss.xml`) is removed,
  with a `for` over the set and a `while ... remove` inside it;
- what is left is joined by `/` and stripped of slashes;
- the query is replaced by `mode=links&do=rss` when the path ends in
  `rss.php`, and by `do=rss` otherwise;
- the URL is put back together with `urlunparse`.

`main` then gathers the manual feeds and the feeds found on the remote
directories. It reports every one that is neither current nor known bad,
nor current under its `http:`/`https:` twin, and counts what it printed.

The model has six modules:
- `PyStr` holds the `str` methods used: `find`, `rfind`, `partition`,
  `split`, `join`, `strip`, `startswith`, `endswith`, `replace` and `lower`.
- `Pathlib` holds `PurePosixPath(...).parts`: an anchor of `/` or `//`,
  then the components, with empty ones and `.` dropped.
- `UrlParse` holds `urlsplit`, `urlparse`, `urlunsplit` and `urlunparse`
  as CPython 3.12 writes them. This includes `uses_netloc`, `uses_params`,
  the removal of tab, CR and LF, and the lower-cased scheme.
- `Sync` holds `sanitize_url`, both as a specification function
  (`Sanitize`) and as the step-by-step method with the removal loop
  (`SanitizeUrl`, `DropUnwanted`). It also holds the loaders and the
  reconciliation in `main` (`CollectFeeds`, `ReportNewFeeds`, `RunSync`).
- `Canonical` proves that, for a URL that has a scheme or a network
  location and, when the scheme carries parameters, no `;` in the path,
  the canonical URL parses back to the components it was built from and
  `sanitize_url` is idempotent. It also exhibits a relative URL on which
  it is not idempotent.
- `Doctests` proves every example in the docstring of `sanitize_url` but
  the one at sync.py:81-82, for which it proves what the code produces. Each
  one is stated for any `https` host and any query free of `#`, tab, CR and
  LF, so one lemma covers the `?do=atom`, `?do=rss`, `?do=rss?`,
  `?do=rss&`, `?kw=...` and query-less variants.

The docstring and the code disagree at sync.py:81-82. The docstring expects
`https://example.org/shaarli/feed/feed/rss` to become
`https://example.org/shaarli/feed?do=rss`. The loop at sync.py:96-98
removes every `feed`, though, so the code gives
`https://example.org/shaarli?do=rss`. The model follows the code, and
`Doctests.SubfolderFeedFeedRss` proves the code's result.

## Model

| member | source | states |
|---|---|---|
| Sync.Without | sync.py:96-98 | removing never lengthens the list; what is kept and in which order is stated by `WithoutMembers` and `WithoutAppend` |
| Sync.RemoveFirst | sync.py:98 | `list.remove` takes out exactly the first occurrence of the element: the result is the list before that occurrence followed by the list after it, so the other elements keep their order, and it holds the original elements minus that one copy |
| Sync.WithoutMembers | sync.py:96-98 | a component is left after the removal exactly when it was in the list and is not, as a whole string, in the removed set |
| Sync.WithoutAppend | sync.py:96-98 | removing from a concatenation removes from each half |
| Sync.WithoutTwice | sync.py:96-98 | removing one set and then another removes their union, which is what successive iterations of the `for` do |
| Sync.WithoutIdempotent | sync.py:96-98 | removing the same set a second time changes nothing |
| Sync.WithoutNothing | sync.py:97 | a list holding no removed element is kept whole, so the `while` ends at once |
| Sync.WithoutRemoveFirst | sync.py:97-98 | one `list.remove` of an unwanted element leaves the filtered result unchanged |
| Sync.DropUnwanted | sync.py:95-98 | the nested loop leaves exactly the components that are not unwanted, in their order, whatever order the set is iterated in |
| Sync.CleanPathDropsAnchor | sync.py:95-99 | the anchor of `parts` is never unwanted, and stripping slashes off the join removes it again |
| Sync.CleanPath | sync.py:95-99 | the cleaned path is the join by `/` of the components that are not unwanted |
| Sync.StripJoin | sync.py:99 | a join of components has no slash to strip |
| Sync.StripAnchoredJoin | sync.py:99 | a join that starts with the anchor `/` or `//` loses exactly the anchor and its separator when stripped |
| Sync.FeedQuery | sync.py:102 | the new query is one of the two fixed queries |
| Sync.RootedJoin | sync.py:99-104 | the cleaned path, or `/` when nothing is left, splits back into the kept components and has no slash at either end unless it is `/` |
| Sync.Canonicalize | sync.py:99-104 | scheme, network location, parameters and fragment are kept; the path keeps exactly the wanted components, and is `/` exactly when none is left; the query is the oText one exactly when the path ends in `rss.php` |
| Sync.Sanitize | sync.py:90-105 | the result is empty exactly when the input is |
| Sync.SanitizeUrl | sync.py:90-105 | the step-by-step `sanitize_url`, loop included, computes `Sanitize` for every iteration order of the set |
| Sync.SanitizeAll | sync.py:122-131 | a loader's canonical set holds the empty string only when its raw list did |
| Sync.SanitizeEach | sync.py:119 | every remote source yields, in its place, the canonical set of its URLs, and that set holds the empty string exactly when the source's raw list did |
| Sync.NewFeeds | sync.py:142-149 | the URLs `main` reports are among `new - current - bad` and are never empty; `HttpTwinSkipped` and `HttpsTwinSkipped` state the scheme-twin rule |
| Sync.CollectFeeds | sync.py:135-140 | after the `update` loop a URL is a candidate exactly when it is a manual feed or was found by one of the remote sources |
| Sync.ReportNewFeeds | sync.py:142-153 | the report loop prints each URL of `NewFeeds` exactly once and nothing else, and the count equals the number printed |
| Sync.HttpTwinSkipped | sync.py:145-148 | an `http:` URL is not reported when its `https:` twin is current |
| Sync.HttpsTwinSkipped | sync.py:145-148 | an `https:` URL is not reported when its `http:` twin is current |
| Sync.RunSync | sync.py:134-153 | `main` without I/O prints a URL exactly when it is a canonical manual or remote feed that is neither current nor bad, is non-empty and has no current scheme twin; no URL is printed twice, and the count equals the number printed |
| PyStr.Find | sync.py:93 | `str.find` gives the first index of the character, or -1 exactly when it is absent |
| PyStr.RFind | sync.py:93 | `str.rfind` gives the last index of the character, or -1 exactly when it is absent |
| PyStr.Partition | sync.py:93 | the text before the first separator and the text after it, or the whole text and nothing |
| PyStr.Split | sync.py:95 | `str.split` gives at least one piece, and no piece holds the separator |
| PyStr.SplitJoin | sync.py:95-99 | splitting a join on its separator gives back the parts when no part holds it |
| PyStr.JoinLacks | sync.py:99 | a character other than the separator is in a join only if it is in a part |
| PyStr.LStrip | sync.py:99 | `lstrip` returns a suffix that does not start with the character, and every character it removed is that character |
| PyStr.RStrip | sync.py:99 | `rstrip` returns a prefix that does not end with the character, and every character it removed is that character |
| PyStr.Strip | sync.py:99 | `strip` returns the slice that starts after the leading run of the character; everything before and after that slice is the character, and the slice neither starts nor ends with it |
| PyStr.ReplaceAbsent | sync.py:146-147 | `str.replace` of a pattern that does not occur changes nothing |
| PyStr.ReplaceLeading | sync.py:146-147 | a leading occurrence becomes the replacement, and the rest is replaced on its own |
| Pathlib.Root | sync.py:95 | the anchor is none, `/` or `//`; none exactly when the path does not start with `/`, and `//` exactly when it starts with two slashes and not three |
| Pathlib.DropTrivial | sync.py:95 | pathlib keeps exactly the pieces of the split that are neither empty nor `.` |
| Pathlib.DropTrivialAppend | sync.py:95 | dropping the trivial pieces of a concatenation drops them from each half, so the kept pieces stay in their order |
| Pathlib.Parts | sync.py:95 | `parts` has one element more than the components exactly when the path starts with `/`, and every element is a component except an anchor in first place |
| Pathlib.Segments | sync.py:95 | every component is non-empty, not `.`, and holds no `/` |
| Pathlib.DropTrivialKeeps | sync.py:95 | a list of components passes through pathlib unchanged |
| Pathlib.SegmentsLack | sync.py:95 | a character other than `/` that the path lacks is in no component |
| Pathlib.SegmentsOfJoin | sync.py:95-99 | components joined by `/` behind no anchor, `/` or `//` split back into the same components |
| Pathlib.SegmentsOfPieces | sync.py:95 | the components of slash-free pieces joined by `/` are the pieces that are neither empty nor `.` |
| Pathlib.JoinShape | sync.py:99 | a join of components is empty exactly when there are none, and neither starts nor ends with `/` |
| UrlParse.LStripC0 | sync.py:93 | `urlsplit`'s `lstrip` of control characters and spaces: the result is a suffix of the URL, everything removed is a control character or a space, and the result does not start with one |
| UrlParse.RemoveUnsafe | sync.py:93 | the removal of tab, CR and LF: a character is kept exactly when it is in the input and is none of the three, a single character is kept exactly when it is none of them, and the first character survives unless it is one of them |
| UrlParse.RemoveUnsafeAppend | sync.py:93 | the removal distributes over concatenation, so the kept characters stay in their order |
| UrlParse.Prepare | sync.py:93 | the text `urlsplit` cuts is what follows the whole leading run of control characters and spaces, with every tab, CR and LF removed and every other character kept in order; it holds no tab, CR or LF and does not start with a control character or a space |
| UrlParse.SplitScheme | sync.py:93 | the scheme found is empty or a lower-case scheme; with no scheme the rest is the whole URL, and the rest is always a suffix of it |
| UrlParse.SplitNetloc | sync.py:93 | the URL is `//`, the network location and the rest; the network location holds no `/`, `?` or `#`, and the rest is empty or starts with one of them |
| UrlParse.ParamsIndex | sync.py:93 | the cut for the parameters is at a `;` with no `/` after it, and there is one whenever the path has a `;` and no `/` |
| UrlParse.SplitParams | sync.py:93 | the parameters hold no `/`, and either nothing is split off or the path, a `;` and the parameters make up the input |
| UrlParse.SplitParamsOf | sync.py:93-105 | parameters that `urlunparse` wrote after a path without `;` are cut off again |
| UrlParse.UnsplitShape | sync.py:105 | `urlunsplit` writes the scheme and its `:` in front of everything else |
| UrlParse.Urlsplit | sync.py:93 | `urlsplit` gives a lower-case scheme, a network location without delimiters, a path without `#` or `?`, no parameters, and no tab, CR or LF anywhere |
| UrlParse.Urlparse | sync.py:93 | `urlparse` gives the same components, and splits parameters off the path only for a scheme in `uses_params` |
| UrlParse.PlacedPath | sync.py:105 | behind a network location, `urlunsplit` writes a non-empty path with a leading `/` |
| UrlParse.UrlsplitUnsplit | sync.py:93-105 | `urlsplit` reads back the components `urlunsplit` wrote, apart from the `/` put before the path; this is the contract for `Urlunsplit` |
| UrlParse.UrlparseUnparse | sync.py:93-105 | `urlparse` reads back the components `urlunparse` wrote, parameters included, apart from the `/` put before the path; this is the contract for `Urlunparse` |
| Canonical.CanonicalPathLacks | sync.py:95-104 | a character other than `/` that the parsed path lacks is not in the canonical path |
| Canonical.CanonicalUnparseable | sync.py:93-105 | the canonical components of a URL with a scheme or a network location and no `;` in a path that can carry parameters can be written and read back |
| Canonical.PathWithParams | sync.py:104-105 | a canonical path, with or without parameters, does not start with `//` |
| Canonical.SanitizeReparses | sync.py:93-105 | for a URL with a scheme or a network location and no `;` in a path that can carry parameters, parsing the canonical URL gives back the canonical components, and the same path components |
| Canonical.CanonicalSegments | sync.py:96-98 | a component is in the canonical path exactly when it is in the parsed path and is not, as a whole, unwanted |
| Canonical.SanitizeSegments | sync.py:93-105 | for a URL with a scheme or a network location and no `;` in a path that can carry parameters, the canonical URL, parsed again, holds no unwanted component and every other component of the original path |
| Canonical.CanonicalizeBySegments | sync.py:102-104 | the canonical components depend on the path only through its wanted components, and not on the query at all |
| Canonical.RecanonicalizeStable | sync.py:93-105 | for a URL with a scheme or a network location and no `;` in a path that can carry parameters, canonicalising the parsed canonical URL gives the same components again |
| Canonical.SanitizeIdempotent | sync.py:90-105 | `sanitize_url(sanitize_url(u)) == sanitize_url(u)` for every URL with a scheme or a network location and no `;` in a path that can carry parameters |
| Canonical.NotIdempotentWithoutScheme | sync.py:90-105 | `sanitize_url("feed/A:b")` is `A:b?do=rss`, and sanitising that again gives something else |
| Canonical.RelativeSanitized | sync.py:90-105 | `feed/` followed by one plain wanted component sanitises to that component with the Shaarli query, with no scheme and no network location written |
| Canonical.RelativeParsed | sync.py:93 | `urlparse` reads `feed/` followed by a plain component as a bare path, since the `/` comes before any `:` |
| Canonical.RelativeCleaned | sync.py:95-99 | `feed/` followed by one wanted component cleans to that component |
| Canonical.SchemeFound | sync.py:93 | a word of scheme characters that starts with a letter and stands before a `:` is read as the scheme, in lower case |
| Canonical.SanitizeStartsWithScheme | sync.py:93-105 | when `urlparse` finds a scheme, the canonical URL starts with that scheme and its `:` |
| Canonical.SchemeChangesHead | sync.py:93-105 | a URL whose first character differs from that of the lower-cased scheme `urlparse` finds in it is not a fixed point of `sanitize_url` |
| Doctests.SanitizeOfPieces | sync.py:93-105 | for a URL of scheme, host, slash-separated pieces behind one or two slashes, and a query, the result is the wanted pieces joined by `/` (or `/` alone) with the query chosen by that path |
| Doctests.ParseOfPieces | sync.py:93 | `urlparse` reads such a URL back into the components it was written from |
| Doctests.CanonicalOfPieces | sync.py:95-104 | the canonical components of such a URL |
| Doctests.OnSite | sync.py:93-105 | on an `https` host, a path that cleans to `cleaned` becomes `/cleaned` (or `/`) with the query chosen by that path, whatever the input query |
| Doctests.OnlyDroppedCleans | sync.py:95-99 | a path made only of empty or unwanted pieces cleans to nothing |
| Doctests.InSubfolderCleans | sync.py:95-99 | a wanted sub-folder followed by empty or unwanted pieces cleans to the sub-folder |
| Doctests.ExampleOrigin | sync.py:37 | `https://example.org`, the origin of every example, meets the examples' requirement |
| Doctests.SiteRoot | sync.py:37-40 | `/` with any query gives `/?do=rss`; this also covers sync.py:75-76 and 85-86 |
| Doctests.FeedAtom | sync.py:41-42 | `/feed/atom` gives `/?do=rss` |
| Doctests.FeedRss | sync.py:43-48 | `/feed/rss` with any query gives `/?do=rss` |
| Doctests.Subfolder | sync.py:51-54 | `/shaarli/` with any query gives `/shaarli?do=rss` |
| Doctests.SubfolderFeedAtom | sync.py:55-56 | `/shaarli/feed/atom` gives `/shaarli?do=rss` |
| Doctests.SubfolderFeedRss | sync.py:57-62 | `/shaarli/feed/rss` with any query gives `/shaarli?do=rss` |
| Doctests.OTextFeed | sync.py:65-66 | `/rss.php` keeps its path and gets `mode=links&do=rss`, whatever its query |
| Doctests.EmptyUrl | sync.py:69-70 | the empty URL gives the empty string |
| Doctests.DoubleSlashRoot | sync.py:71-72 | `//` gives `/?do=rss` |
| Doctests.DoubleSlashFeed | sync.py:73-74 | `//feed` gives `/?do=rss` |
| Doctests.IndexPhp | sync.py:77-78 | `/index.php` with any query gives `/?do=rss` |
| Doctests.IndexPhp5 | sync.py:79-80 | `/index.php5` gives `/?do=rss` |
| Doctests.SubfolderFeedFeedRss | sync.py:96-98 | `/shaarli/feed/feed/rss` gives `/shaarli?do=rss`, because every `feed` is removed; the docstring at sync.py:81-82 expects `/shaarli/feed?do=rss` |
| Doctests.RssXml | sync.py:83-84 | `/rss.xml` gives `/?do=rss` |
| Doctests.CarnetAtom | sync.py:87-88 | `/carnet.atom` keeps its path, because only whole components are removed |

## Left out

- `get_dynamic_feeds` (sync.py:108-119) fetches over the network, falls back to partial data on `IncompleteRead`, and parses JSON or an OPML regular expression. The URL lists it yields are a parameter of `Sync.RunSync`, and are canonicalised as at sync.py:119.
- The file reads and `json.loads` of the three local loaders (sync.py:122-131) are left out. Each loader is `Sync.SanitizeAll` of a given list of raw URLs.
- The `print` formatting (sync.py:150, 153) is left out. The printed URLs are the sequence `printed`, and the final count is `count`.
- The path and URL constants (sync.py:13-22) and the command-line entry point (sync.py:156-157) are left out.
- Python does not fix the iteration order of a set. The order of `UNWANTED_URL_PATH_PARTS` is the parameter `order`, and the order of `diff` is a non-deterministic choice in `Sync.ReportNewFeeds`.
- `urllib.parse` is modelled as CPython 3.12 writes it, for `str` input. The `ValueError`s that `urlsplit` raises for malformed bracketed hosts and for some non-ASCII network locations are not modelled, and neither are the parse cache and `bytes` input.
- `pathlib` is modelled through `PurePosixPath.parts` only. `..` is kept as an ordinary component, as pathlib does.
- Canonical.SanitizeIdempotent: is stated only for URLs that have a scheme or a network location and whose path, under a scheme in `uses_params`, holds no `;`. Outside those, the second pass can read the canonical URL differently. `feed/A:b` becomes `A:b?do=rss`, whose `A` is then read as a scheme; `Canonical.NotIdempotentWithoutScheme` proves this. `https://example.org/x/feed;d/rss` becomes `https://example.org/x/feed;d?do=rss`, which becomes `https://example.org/x;d?do=rss`; this second example is worked out by hand and not proved.
- The docstring examples are stated for any `https` host and any query without `#`, tab, CR or LF, rather than for the literal string of the docstring. `Doctests.ExampleOrigin` shows that `https://example.org` is such a host, and every docstring query is such a query.
- The docstring example at sync.py:81-82 is not proved as written, because the code does not produce it. `Doctests.SubfolderFeedFeedRss` proves what the code produces.
