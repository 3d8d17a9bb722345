/** The part of `urllib.parse` (CPython 3.12) that the canonicaliser relies
    on: `urlsplit` and `urlparse`, which cut a URL into scheme, network
    location, path, `;params`, query and fragment, and `urlunsplit` and
    `urlunparse`, which put the six components back together. The
    exceptions `urlsplit` raises for malformed bracketed hosts and for
    non-ASCII network locations are not modelled. */
module UrlParse {
  import opened PyStr

  /** The six components of a `ParseResult`. */
  datatype Url = Url(
    scheme: string,
    netloc: string,
    path: string,
    params: string,
    query: string,
    fragment: string)

  /** `uses_netloc`: schemes whose URLs get `//` and an authority back from
      `urlunsplit` even when the authority is empty. */
  const UsesNetloc: set<string> := {
    "", "ftp", "http", "gopher", "nntp", "telnet", "imap", "wais", "file",
    "mms", "https", "shttp", "snews", "prospero", "rtsp", "rtsps", "rtspu",
    "rsync", "svn", "svn+ssh", "sftp", "nfs", "git", "git+ssh", "ws", "wss",
    "itms-services"}

  /** `uses_params`: schemes whose last path segment may carry `;params`. */
  const UsesParams: set<string> := {
    "", "ftp", "hdl", "prospero", "http", "imap", "https", "shttp", "rtsp",
    "rtsps", "rtspu", "sip", "sips", "mms", "sftp", "tel"}

  /** `scheme_chars`: ASCII letters, digits, `+`, `-` and `.`. */
  predicate IsSchemeChar(c: char)
  {
    IsAsciiAlpha(c) || '0' <= c <= '9' || c == '+' || c == '-' || c == '.'
  }

  /** A scheme as `urlsplit` returns it: empty, or an ASCII letter followed
      by scheme characters, all in lower case. */
  predicate IsScheme(s: string)
  {
    (s != "" ==> IsAsciiAlpha(s[0])) &&
    forall k :: 0 <= k < |s| ==> IsSchemeChar(s[k]) && !IsAsciiUpper(s[k])
  }

  /** `_WHATWG_C0_CONTROL_OR_SPACE`: U+0000 to U+0020. */
  predicate IsC0OrSpace(c: char) { c <= ' ' }

  /** `_UNSAFE_URL_BYTES_TO_REMOVE`: tab, carriage return, line feed. */
  predicate IsUnsafe(c: char) { c == '\t' || c == '\r' || c == '\n' }

  predicate NoUnsafe(s: string)
  {
    '\t' !in s && '\r' !in s && '\n' !in s
  }

  /** The characters that end a network location. */
  predicate IsNetlocDelim(c: char) { c == '/' || c == '?' || c == '#' }

  predicate NoNetlocDelim(s: string)
  {
    '/' !in s && '?' !in s && '#' !in s
  }

  /** A piece of a path that `urlsplit` and `urlparse` leave inside the
      path and that holds no slash. */
  predicate Plain(s: string)
  {
    '/' !in s && '#' !in s && '?' !in s && ';' !in s && NoUnsafe(s)
  }

  /** `url.lstrip(_WHATWG_C0_CONTROL_OR_SPACE)`. */
  function LStripC0(s: string): (r: string)
    ensures r == [] || !IsC0OrSpace(r[0])
    ensures |r| <= |s| && r == s[|s| - |r|..]
    ensures forall j :: 0 <= j < |s| - |r| ==> IsC0OrSpace(s[j])
    decreases |s|
  {
    if s != [] && IsC0OrSpace(s[0]) then LStripC0(s[1..]) else s
  }

  /** Removing every tab, carriage return and line feed. */
  function RemoveUnsafe(s: string): (r: string)
    ensures NoUnsafe(r)
    ensures s == [] || IsUnsafe(s[0]) || (r != [] && r[0] == s[0])
    ensures |s| == 1 && IsUnsafe(s[0]) ==> r == []
    ensures |s| == 1 && !IsUnsafe(s[0]) ==> r == s
    ensures forall c :: c in r <==> c in s && !IsUnsafe(c)
  {
    if s == [] then []
    else
      var rest := RemoveUnsafe(s[1..]);
      if IsUnsafe(s[0]) then rest
      else
        assert forall k :: 1 <= k < 1 + |rest| ==> ([s[0]] + rest)[k] == rest[k - 1];
        [s[0]] + rest
  }

  /** `RemoveUnsafe` works character by character: it distributes over
      concatenation, so the kept characters stay in their order. */
  lemma {:induction false} RemoveUnsafeAppend(a: string, b: string)
    ensures RemoveUnsafe(a + b) == RemoveUnsafe(a) + RemoveUnsafe(b)
  {
    if a != [] {
      assert (a + b)[0] == a[0];
      assert (a + b)[1..] == a[1..] + b;
      RemoveUnsafeAppend(a[1..], b);
    } else {
      assert a + b == b;
    }
  }

  /** `url[..k]` is the whole leading run of control characters and
      spaces. */
  predicate LeadingC0(url: string, k: int)
  {
    0 <= k <= |url| && (forall j :: 0 <= j < k ==> IsC0OrSpace(url[j])) &&
    (k < |url| ==> !IsC0OrSpace(url[k]))
  }

  /** What `urlsplit` does to its argument before cutting it: the leading
      run of control characters and spaces goes, and so does every tab,
      carriage return and line feed after it. */
  function Prepare(url: string): (r: string)
    ensures NoUnsafe(r) && (r == [] || !IsC0OrSpace(r[0]))
    ensures exists k :: LeadingC0(url, k) && r == RemoveUnsafe(url[k..])
  {
    var s := LStripC0(url);
    assert LeadingC0(url, |url| - |s|);
    assert s == [] || !IsUnsafe(s[0]);
    RemoveUnsafe(s)
  }

  /** The scheme test of `urlsplit`: the text before the first `:` is the
      scheme when it is non-empty, starts with an ASCII letter and holds
      only scheme characters; it is lower-cased and cut off with the `:`. */
  function SplitScheme(url: string): (r: (string, string))
    ensures IsScheme(r.0)
    ensures r.0 == "" ==> r.1 == url
    ensures |r.1| <= |url| && r.1 == url[|url| - |r.1|..]
    ensures NoUnsafe(url) ==> NoUnsafe(r.1)
  {
    var i := Find(url, ':');
    if i > 0 && IsAsciiAlpha(url[0]) && forall k :: 0 <= k < i ==> IsSchemeChar(url[k]) then
      (Lower(url[..i]), url[i + 1..])
    else ("", url)
  }

  /** The index of the first `/`, `?` or `#`, or the length. */
  function DelimIndex(s: string): (i: nat)
    ensures i <= |s|
    ensures NoNetlocDelim(s[..i])
    ensures i < |s| ==> IsNetlocDelim(s[i])
  {
    if s == [] || IsNetlocDelim(s[0]) then 0
    else
      var j := DelimIndex(s[1..]);
      assert s[..j + 1] == [s[0]] + s[1..][..j];
      j + 1
  }

  /** `_splitnetloc(url, 2)`: the network location runs from after the two
      slashes up to the first `/`, `?` or `#`. */
  function SplitNetloc(rest: string): (r: (string, string))
    requires StartsWith(rest, "//")
    ensures NoNetlocDelim(r.0)
    ensures rest == "//" + r.0 + r.1
    ensures r.1 == [] || IsNetlocDelim(r.1[0])
    ensures NoUnsafe(rest) ==> NoUnsafe(r.0) && NoUnsafe(r.1)
  {
    var tail := rest[2..];
    var d := DelimIndex(tail);
    assert rest == "//" + tail[..d] + tail[d..];
    (tail[..d], tail[d..])
  }

  /** `urlsplit(url)`, with the parameters left empty. */
  function Urlsplit(url: string): (r: Url)
    ensures r.params == ""
    ensures IsScheme(r.scheme) && NoNetlocDelim(r.netloc)
    ensures '#' !in r.path && '?' !in r.path && '#' !in r.query
    ensures NoUnsafe(r.netloc) && NoUnsafe(r.path) && NoUnsafe(r.query) && NoUnsafe(r.fragment)
  {
    var (scheme, rest) := SplitScheme(Prepare(url));
    SplitRest(scheme, rest)
  }

  /** What `urlsplit` makes of what follows the scheme: the network
      location behind `//`, then the fragment after the first `#`, then the
      query after the first `?`. */
  function SplitRest(scheme: string, rest: string): (r: Url)
    requires NoUnsafe(rest)
    ensures r.scheme == scheme && r.params == "" && NoNetlocDelim(r.netloc)
    ensures '#' !in r.path && '?' !in r.path && '#' !in r.query
    ensures NoUnsafe(r.netloc) && NoUnsafe(r.path) && NoUnsafe(r.query) && NoUnsafe(r.fragment)
  {
    var (netloc, afterNetloc) := if StartsWith(rest, "//") then SplitNetloc(rest) else ("", rest);
    var (beforeFragment, fragment) := Partition(afterNetloc, '#');
    NoUnsafePartition(afterNetloc, '#');
    var (path, query) := Partition(beforeFragment, '?');
    NoUnsafePartition(beforeFragment, '?');
    Url(scheme, netloc, path, "", query, fragment)
  }


  lemma NoUnsafeSplit(a: string, b: string)
    requires NoUnsafe(a + b)
    ensures NoUnsafe(a) && NoUnsafe(b)
  {
    assert forall k :: 0 <= k < |a| ==> a[k] == (a + b)[k];
    assert forall k :: 0 <= k < |b| ==> b[k] == (a + b)[|a| + k];
  }

  lemma NoUnsafePartition(s: string, c: char)
    requires NoUnsafe(s)
    ensures NoUnsafe(Partition(s, c).0) && NoUnsafe(Partition(s, c).1)
  {
    var (before, after) := Partition(s, c);
    if c in s {
      NoUnsafeSplit(before, [c] + after);
      NoUnsafeSplit([c], after);
    }
  }

  /** Where `_splitparams` cuts: the first `;` after the last `/` (or the
      first `;` when there is no `/`), or -1. */
  function ParamsIndex(url: string): (i: int)
    ensures -1 <= i < |url|
    ensures 0 <= i ==> url[i] == ';' && '/' !in url[i + 1..]
    ensures '/' !in url && ';' in url ==> 0 <= i
  {
    if '/' in url then
      var j := RFind(url, '/');
      var i := FindFrom(url, ';', j);
      assert 0 <= i ==> url[i + 1..] == url[j + 1..][i - j..];
      i
    else Find(url, ';')
  }

  /** `_splitparams(url)`: the path before the cut and the parameters
      after it. */
  function SplitParams(url: string): (r: (string, string))
    requires ';' in url
    ensures '/' !in r.1
    ensures r == (url, "") || url == r.0 + ";" + r.1
  {
    var i := ParamsIndex(url);
    if i < 0 then (url, "")
    else
      assert url == url[..i] + ";" + url[i + 1..];
      (url[..i], url[i + 1..])
  }

  /** `urlparse(url)`: `urlsplit`, then the parameters are cut off the path
      for the schemes that use them. */
  function Urlparse(url: string): (r: Url)
    ensures IsScheme(r.scheme) && NoNetlocDelim(r.netloc) && '/' !in r.params
    ensures '#' !in r.path && '?' !in r.path && '#' !in r.params && '?' !in r.params
    ensures '#' !in r.query
    ensures NoUnsafe(r.netloc) && NoUnsafe(r.path) && NoUnsafe(r.params)
    ensures NoUnsafe(r.query) && NoUnsafe(r.fragment)
    ensures r.params != "" ==> r.scheme in UsesParams
  {
    var s := Urlsplit(url);
    if s.scheme in UsesParams && ';' in s.path then
      var (path, params) := SplitParams(s.path);
      SplitParamsKeeps(s.path);
      s.(path := path, params := params)
    else s
  }

  /** Both halves of a split path keep what the path lacks. */
  lemma SplitParamsKeeps(url: string)
    requires ';' in url && '#' !in url && '?' !in url && NoUnsafe(url)
    ensures var (path, params) := SplitParams(url);
      '#' !in path && '?' !in path && '#' !in params && '?' !in params &&
      NoUnsafe(path) && NoUnsafe(params)
  {
    var (path, params) := SplitParams(url);
    if url == path + ";" + params {
      HalvesKeep(url, path, params);
    }
  }

  /** The text on either side of a `;` lacks what the whole lacks. */
  lemma HalvesKeep(url: string, path: string, params: string)
    requires url == path + ";" + params
    requires '#' !in url && '?' !in url && NoUnsafe(url)
    ensures '#' !in path && '?' !in path && '#' !in params && '?' !in params
    ensures NoUnsafe(path) && NoUnsafe(params)
  {
    assert url == path + (";" + params);
    NoUnsafeSplit(path, ";" + params);
    NoUnsafeSplit(";", params);
    assert forall c :: c in path ==> c in url;
    assert forall c :: c in params ==> c in url;
  }

  /** Whether `urlunsplit` writes `//` and the network location: when there
      is one, or when the scheme is one of `uses_netloc` and the path does
      not already start with `//`. */
  predicate NetlocForm(scheme: string, netloc: string, url: string)
  {
    netloc != "" || (scheme != "" && scheme in UsesNetloc && !StartsWith(url, "//"))
  }

  /** The path as `urlunsplit` writes it: behind a network location a
      non-empty path that does not start with `/` gets one. */
  function PlacedPath(scheme: string, netloc: string, url: string): (r: string)
    ensures r == url || (NetlocForm(scheme, netloc, url) && r == "/" + url)
    ensures NetlocForm(scheme, netloc, url) && url != "" ==> r[0] == '/'
  {
    if NetlocForm(scheme, netloc, url) && url != "" && url[0] != '/' then "/" + url else url
  }

  /** `urlunsplit((scheme, netloc, url, query, fragment))`. */
  function Urlunsplit(scheme: string, netloc: string, url: string, query: string, fragment: string): string
  {
    var placed := PlacedPath(scheme, netloc, url);
    var withNetloc := if NetlocForm(scheme, netloc, url) then "//" + netloc + placed else placed;
    var withScheme := if scheme != "" then scheme + ":" + withNetloc else withNetloc;
    var withQuery := WithPart(withScheme, '?', query);
    WithPart(withQuery, '#', fragment)
  }

  /** `s + c + part` when `part` is not empty, `s` otherwise: how
      `urlunsplit` appends the query and the fragment. */
  function WithPart(s: string, c: char, part: string): string
  {
    if part != "" then s + [c] + part else s
  }

  /** `urlunparse(parts)`: the parameters go back after a `;`. */
  function Urlunparse(u: Url): string
  {
    Urlunsplit(u.scheme, u.netloc, WithPart(u.path, ';', u.params), u.query, u.fragment)
  }

  // ---------------------------------------------------------------------
  // Parsing what was put together
  // ---------------------------------------------------------------------

  /** Components that `urlsplit` gets back from `urlunsplit`: each lacks the
      characters that would end it early, none holds a character `urlsplit`
      removes, there is a scheme or a network location (otherwise a `:` in
      the path could be read as one), and without a network location the
      path does not start with `//`. */
  predicate Splittable(scheme: string, netloc: string, url: string, query: string, fragment: string)
  {
    && IsScheme(scheme) && NoNetlocDelim(netloc)
    && '#' !in url && '?' !in url && '#' !in query
    && NoUnsafe(netloc) && NoUnsafe(url) && NoUnsafe(query) && NoUnsafe(fragment)
    && (scheme != "" || netloc != "")
    && (netloc == "" ==> !StartsWith(url, "//"))
  }

  /** `urlsplit` is the inverse of `urlunsplit`, up to the `/` that
      `urlunsplit` puts before a path behind a network location. */
  lemma UrlsplitUnsplit(scheme: string, netloc: string, url: string, query: string, fragment: string)
    requires Splittable(scheme, netloc, url, query, fragment)
    ensures Urlsplit(Urlunsplit(scheme, netloc, url, query, fragment))
         == Url(scheme, netloc, PlacedPath(scheme, netloc, url), "", query, fragment)
  {
    var s := Urlunsplit(scheme, netloc, url, query, fragment);
    var afterScheme := AfterScheme(scheme, netloc, url, query, fragment);
    var afterNetloc := AfterNetloc(scheme, netloc, url, query, fragment);
    UnsplitScheme(scheme, netloc, url, query, fragment);
    NetlocOfUnsplit(scheme, netloc, url, query, fragment);
    var placed := PlacedPath(scheme, netloc, url);
    PlacedLacks(scheme, netloc, url, '#');
    PlacedLacks(scheme, netloc, url, '?');
    var withQuery := WithPart(placed, '?', query);
    assert '#' !in withQuery;
    PartitionWithPart(withQuery, '#', fragment);
    PartitionWithPart(placed, '?', query);
  }

  /** What `urlunsplit` writes after the scheme and its `:`. */
  function AfterScheme(scheme: string, netloc: string, url: string, query: string, fragment: string): string
  {
    var afterNetloc := AfterNetloc(scheme, netloc, url, query, fragment);
    if NetlocForm(scheme, netloc, url) then "//" + netloc + afterNetloc else afterNetloc
  }

  /** What `urlunsplit` writes after the network location. */
  function AfterNetloc(scheme: string, netloc: string, url: string, query: string, fragment: string): string
  {
    WithPart(WithPart(PlacedPath(scheme, netloc, url), '?', query), '#', fragment)
  }

  /** `urlsplit` finds the scheme `urlunsplit` wrote and leaves the rest. */
  lemma UnsplitScheme(scheme: string, netloc: string, url: string, query: string, fragment: string)
    requires Splittable(scheme, netloc, url, query, fragment)
    ensures var s := Urlunsplit(scheme, netloc, url, query, fragment);
      Prepare(s) == s && SplitScheme(s) == (scheme, AfterScheme(scheme, netloc, url, query, fragment))
  {
    var body := AfterScheme(scheme, netloc, url, query, fragment);
    var s := Urlunsplit(scheme, netloc, url, query, fragment);
    UnsplitShape(scheme, netloc, url, query, fragment);
    assert NoUnsafe(body) by {
      var placed := PlacedPath(scheme, netloc, url);
      PlacedLacks(scheme, netloc, url, '\t');
      PlacedLacks(scheme, netloc, url, '\r');
      PlacedLacks(scheme, netloc, url, '\n');
      assert NoUnsafe(WithPart(placed, '?', query));
      assert NoUnsafe(AfterNetloc(scheme, netloc, url, query, fragment));
    }
    assert NoUnsafe(scheme) by {
      assert forall k :: 0 <= k < |scheme| ==> IsSchemeChar(scheme[k]);
    }
    assert s != [] ==> s[0] == (if scheme != "" then scheme[0] else '/');
    PrepareKeeps(s);
    if scheme != "" {
      SplitSchemeOf(scheme, body);
    }
  }

  /** `urlunsplit` writes the scheme and its `:` in front of the rest. */
  lemma UnsplitShape(scheme: string, netloc: string, url: string, query: string, fragment: string)
    ensures var body := AfterScheme(scheme, netloc, url, query, fragment);
      Urlunsplit(scheme, netloc, url, query, fragment) == if scheme != "" then scheme + ":" + body else body
  {
    var placed := PlacedPath(scheme, netloc, url);
    var withQuery := WithPart(placed, '?', query);
    var afterNetloc := AfterNetloc(scheme, netloc, url, query, fragment);
    var body := AfterScheme(scheme, netloc, url, query, fragment);
    var head := if scheme != "" then scheme + ":" else "";
    var netPart := if NetlocForm(scheme, netloc, url) then "//" + netloc else "";
    var front := head + netPart;
    var withNetloc := if NetlocForm(scheme, netloc, url) then "//" + netloc + placed else placed;
    var withScheme := if scheme != "" then scheme + ":" + withNetloc else withNetloc;
    assert withNetloc == netPart + placed;
    assert withScheme == front + placed;
    WithPartAfter(front, placed, '?', query);
    WithPartAfter(front, withQuery, '#', fragment);
    assert Urlunsplit(scheme, netloc, url, query, fragment) == front + afterNetloc;
    assert body == netPart + afterNetloc;
    AppendAssoc(head, netPart, afterNetloc);
    if scheme == "" {
      assert head + body == body;
    }
  }

  /** `urlsplit` finds the network location `urlunsplit` wrote, if any. */
  lemma NetlocOfUnsplit(scheme: string, netloc: string, url: string, query: string, fragment: string)
    requires Splittable(scheme, netloc, url, query, fragment)
    ensures var body := AfterScheme(scheme, netloc, url, query, fragment);
      (if StartsWith(body, "//") then SplitNetloc(body) else ("", body))
      == (netloc, AfterNetloc(scheme, netloc, url, query, fragment))
  {
    var placed := PlacedPath(scheme, netloc, url);
    var tail := WithPart(WithPart("", '?', query), '#', fragment);
    var afterNetloc := AfterNetloc(scheme, netloc, url, query, fragment);
    assert afterNetloc == placed + tail by {
      assert placed + "" == placed;
      WithPartAfter(placed, "", '?', query);
      WithPartAfter(placed, WithPart("", '?', query), '#', fragment);
    }
    assert tail == [] || tail[0] == '?' || tail[0] == '#';
    if NetlocForm(scheme, netloc, url) {
      assert afterNetloc == [] || IsNetlocDelim(afterNetloc[0]);
      SplitNetlocOf(netloc, afterNetloc);
    } else {
      NotDoubleSlash(url, tail);
    }
  }

  /** Components that `urlparse` gets back from `urlunparse`: they can be
      split, the path is not empty, the parameters hold no `/`, and for a
      scheme that uses parameters the path holds no `;` (so that the
      parameters are cut off where `urlunparse` wrote them, and only when
      there are some). */
  predicate Unparseable(u: Url)
  {
    && u.path != ""
    && '/' !in u.params
    && (u.params != "" ==> u.scheme in UsesParams)
    && (u.scheme in UsesParams ==> ';' !in u.path)
    && Splittable(u.scheme, u.netloc, WithPart(u.path, ';', u.params), u.query, u.fragment)
  }

  /** `urlparse` is the inverse of `urlunparse`, up to the `/` that
      `urlunsplit` puts before a path behind a network location. */
  lemma UrlparseUnparse(u: Url)
    requires Unparseable(u)
    ensures Urlparse(Urlunparse(u)) == u.(path := PlacedPath(u.scheme, u.netloc, u.path))
  {
    var url := WithPart(u.path, ';', u.params);
    UrlsplitUnsplit(u.scheme, u.netloc, url, u.query, u.fragment);
    var placed := PlacedPath(u.scheme, u.netloc, u.path);
    PlacedParams(u.scheme, u.netloc, u.path, u.params);
    if u.params != "" {
      SplitParamsOf(placed, u.params);
    } else {
      assert url == u.path;
    }
  }

  /** Behind a network location the `/` goes before the path, not between
      the path and its parameters. */
  lemma PlacedParams(scheme: string, netloc: string, path: string, params: string)
    requires path != ""
    ensures PlacedPath(scheme, netloc, WithPart(path, ';', params))
         == WithPart(PlacedPath(scheme, netloc, path), ';', params)
    ensures ';' !in path ==> ';' !in PlacedPath(scheme, netloc, path)
  {
    var url := WithPart(path, ';', params);
    assert url[0] == path[0];
    assert StartsWith(url, "//") == StartsWith(path, "//") by {
      if |path| >= 2 {
        assert url[..2] == path[..2];
      } else if |url| >= 2 {
        assert url[1] == ';';
      }
    }
    if params != "" && PlacedPath(scheme, netloc, path) != path {
      assert "/" + (path + [';'] + params) == ("/" + path) + [';'] + params;
    }
  }

  /** Parameters written after a path without `;` are cut off again. */
  lemma SplitParamsOf(path: string, params: string)
    requires ';' !in path && '/' !in params
    ensures ';' in path + ";" + params
    ensures SplitParams(path + ";" + params) == (path, params)
  {
    var url := path + ";" + params;
    ParamsCut(path, params);
    ParamsIndexOf(path, params);
  }

  lemma ParamsCut(path: string, params: string)
    ensures var url := path + ";" + params;
      url == path + [';'] + params && url[..|path|] == path && url[|path| + 1..] == params
  {
  }

  /** The cut falls on the `;` written after the path. */
  lemma ParamsIndexOf(path: string, params: string)
    requires ';' !in path && '/' !in params
    ensures ParamsIndex(path + ";" + params) == |path|
  {
    var url := path + ";" + params;
    ParamsCut(path, params);
    if '/' in url {
      assert '/' in path;
      RFindAppend(path, ";" + params, '/');
      FindFromAfter(path, ';', params, RFind(path, '/'));
    } else {
      FindAfter(path, ';', params);
    }
  }

  lemma PlacedLacks(scheme: string, netloc: string, url: string, c: char)
    requires c != '/' && c !in url
    ensures c !in PlacedPath(scheme, netloc, url)
  {
  }

  /** Appending a part commutes with putting text in front. */
  lemma WithPartAfter(front: string, s: string, c: char, part: string)
    ensures WithPart(front + s, c, part) == front + WithPart(s, c, part)
  {
    if part != "" {
      assert front + s + [c] + part == front + (s + [c] + part);
    }
  }

  lemma AppendAssoc(a: string, b: string, c: string)
    ensures (a + b) + c == a + (b + c)
  {
  }

  /** Cutting at the first `c` takes off the part that was appended after it. */
  lemma PartitionWithPart(s: string, c: char, part: string)
    requires c !in s
    ensures Partition(WithPart(s, c, part), c) == (s, part)
  {
    if part != "" {
      PartitionOf(s, c, part);
    }
  }

  /** Text that does not start with `//`, followed by a query or fragment,
      does not start with `//` either. */
  lemma NotDoubleSlash(url: string, tail: string)
    requires !StartsWith(url, "//")
    requires tail == [] || tail[0] == '?' || tail[0] == '#'
    ensures !StartsWith(url + tail, "//")
  {
    if |url| >= 2 {
      assert (url + tail)[..2] == url[..2];
    } else if |url + tail| >= 2 {
      assert (url + tail)[1] != '/' || (url + tail)[0] != '/' by {
        if |url| == 1 {
          assert (url + tail)[1] == tail[0];
        } else {
          assert (url + tail)[0] == tail[0];
        }
      }
    }
  }

  lemma LStripC0Keeps(s: string)
    requires s == [] || !IsC0OrSpace(s[0])
    ensures LStripC0(s) == s
  {
  }

  lemma {:induction false} RemoveUnsafeKeeps(s: string)
    requires NoUnsafe(s)
    ensures RemoveUnsafe(s) == s
  {
    if s != [] {
      assert s == [s[0]] + s[1..];
      RemoveUnsafeKeeps(s[1..]);
    }
  }

  /** Text that `urlsplit` would not clean is left as it is. */
  lemma PrepareKeeps(s: string)
    requires NoUnsafe(s) && (s == [] || !IsC0OrSpace(s[0]))
    ensures Prepare(s) == s
  {
    LStripC0Keeps(s);
    RemoveUnsafeKeeps(s);
  }

  /** A scheme and a `:` in front are recognised as that scheme. */
  lemma SplitSchemeOf(scheme: string, rest: string)
    requires IsScheme(scheme) && scheme != ""
    ensures SplitScheme(scheme + ":" + rest) == (scheme, rest)
  {
    var s := scheme + ":" + rest;
    assert ':' !in scheme by {
      assert forall k :: 0 <= k < |scheme| ==> IsSchemeChar(scheme[k]);
    }
    FindAfter(scheme, ':', rest);
    assert s[..|scheme|] == scheme;
    assert s[|scheme| + 1..] == rest;
    LowerKeeps(scheme);
  }

  lemma {:induction false} DelimIndexAfter(a: string, b: string)
    requires NoNetlocDelim(a) && (b == [] || IsNetlocDelim(b[0]))
    ensures DelimIndex(a + b) == |a|
  {
    if a != [] {
      assert (a + b)[1..] == a[1..] + b;
      DelimIndexAfter(a[1..], b);
    } else {
      assert a + b == b;
    }
  }

  /** A network location written after `//` is read back up to the path,
      query or fragment that follows it. */
  lemma SplitNetlocOf(netloc: string, rest: string)
    requires NoNetlocDelim(netloc) && (rest == [] || IsNetlocDelim(rest[0]))
    ensures StartsWith("//" + netloc + rest, "//")
    ensures SplitNetloc("//" + netloc + rest) == (netloc, rest)
  {
    var s := "//" + netloc + rest;
    assert s[2..] == netloc + rest;
    DelimIndexAfter(netloc, rest);
  }
}
