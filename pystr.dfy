/** Models of the Python `str` operations that the feed canonicaliser and the
    reconciliation use: `find`, `rfind`, `split`, `join`, `strip`,
    `startswith`, `endswith`, `replace`, the `in` substring test and an
    ASCII `lower`. Strings are sequences of characters. */
module PyStr {

  /** `s.find(c)` for a single character: the first index of `c`, or -1. */
  function Find(s: string, c: char): (i: int)
    ensures -1 <= i < |s|
    ensures i < 0 <==> c !in s
    ensures 0 <= i ==> s[i] == c && c !in s[..i]
  {
    if s == [] then -1
    else if s[0] == c then 0
    else
      var j := Find(s[1..], c);
      assert s == [s[0]] + s[1..];
      if j < 0 then -1
      else
        assert s[..j + 1] == [s[0]] + s[1..][..j];
        j + 1
  }

  /** `s.rfind(c)` for a single character: the last index of `c`, or -1. */
  function RFind(s: string, c: char): (i: int)
    ensures -1 <= i < |s|
    ensures i < 0 <==> c !in s
    ensures 0 <= i ==> s[i] == c && c !in s[i + 1..]
  {
    if s == [] then -1
    else if s[|s| - 1] == c then |s| - 1
    else
      assert s == s[..|s| - 1] + [s[|s| - 1]];
      var j := RFind(s[..|s| - 1], c);
      if j < 0 then j
      else
        assert s[j + 1..] == s[..|s| - 1][j + 1..] + [s[|s| - 1]];
        j
  }

  /** `s.find(c, start)` for a single character and a start inside `s`:
      the first index from `start` on that holds `c`, or -1. */
  function FindFrom(s: string, c: char, start: nat): (i: int)
    requires start <= |s|
    ensures i == -1 || start <= i < |s|
    ensures i < 0 <==> c !in s[start..]
    ensures 0 <= i ==> s[i] == c && c !in s[start..i]
  {
    var j := Find(s[start..], c);
    if j < 0 then -1
    else
      assert s[start..][..j] == s[start..start + j];
      start + j
  }

  /** The first occurrence of `c` from `start` on sits right after a prefix
      that lacks `c` from `start` on. */
  lemma FindFromAfter(a: string, c: char, b: string, start: nat)
    requires start <= |a| && c !in a[start..]
    ensures FindFrom(a + [c] + b, c, start) == |a|
  {
    assert (a + [c] + b)[start..] == a[start..] + [c] + b;
    FindAfter(a[start..], c, b);
  }

  /** The first occurrence of `c` sits right after a prefix that lacks `c`. */
  lemma {:induction false} FindAfter(a: string, c: char, b: string)
    requires c !in a
    ensures Find(a + [c] + b, c) == |a|
  {
    if a != [] {
      assert (a + [c] + b)[1..] == a[1..] + [c] + b;
      FindAfter(a[1..], c, b);
    }
  }

  /** The last occurrence of `c` sits right before a suffix that lacks `c`. */
  lemma {:induction false} RFindBefore(a: string, c: char, b: string)
    requires c !in b
    ensures RFind(a + [c] + b, c) == |a|
  {
    var s := a + [c] + b;
    if b != [] {
      assert s[|s| - 1] == b[|b| - 1];
      assert s[..|s| - 1] == a + [c] + b[..|b| - 1];
      RFindBefore(a, c, b[..|b| - 1]);
    }
  }

  /** `s.rfind(c)` is not moved by appending text that lacks `c`. */
  lemma RFindAppend(a: string, b: string, c: char)
    requires c in a && c !in b
    ensures RFind(a + b, c) == RFind(a, c)
  {
    var i := RFind(a, c);
    var rest := a[i + 1..] + b;
    assert c !in rest;
    CutAt(a, b, i);
    RFindBefore(a[..i], c, rest);
  }

  /** `a + b` cut around the character at `i` of `a`. */
  lemma CutAt(a: string, b: string, i: nat)
    requires i < |a|
    ensures a + b == a[..i] + [a[i]] + (a[i + 1..] + b)
  {
    assert a == a[..i] + [a[i]] + a[i + 1..];
  }

  /** `s.partition(c)` without the separator: the text before the first `c`
      and the text after it, or `(s, "")` when `c` does not occur. This is
      how `urlsplit` cuts off the fragment and the query. */
  function Partition(s: string, c: char): (r: (string, string))
    ensures c in s ==> r.0 + [c] + r.1 == s && c !in r.0
    ensures c !in s ==> r == (s, "")
  {
    var i := Find(s, c);
    if i < 0 then (s, "")
    else
      assert s == s[..i] + [c] + s[i + 1..];
      (s[..i], s[i + 1..])
  }

  lemma PartitionOf(a: string, c: char, b: string)
    requires c !in a
    ensures Partition(a + [c] + b, c) == (a, b)
  {
    FindAfter(a, c, b);
    assert (a + [c] + b)[..|a|] == a;
    assert (a + [c] + b)[|a| + 1..] == b;
  }

  /** `s.split(c)`: the pieces between the occurrences of `c`. */
  function Split(s: string, c: char): (pieces: seq<string>)
    ensures |pieces| >= 1
    ensures forall k :: 0 <= k < |pieces| ==> c !in pieces[k]
    decreases |s|
  {
    var i := Find(s, c);
    if i < 0 then [s]
    else
      var rest := Split(s[i + 1..], c);
      ConsLacks(s[..i], rest, c);
      [s[..i]] + rest
  }

  lemma ConsLacks(first: string, rest: seq<string>, c: char)
    requires c !in first && forall k :: 0 <= k < |rest| ==> c !in rest[k]
    ensures forall k :: 0 <= k < 1 + |rest| ==> c !in ([first] + rest)[k]
  {
    forall k | 0 <= k < 1 + |rest|
      ensures c !in ([first] + rest)[k]
    {
      if k > 0 {
        assert ([first] + rest)[k] == rest[k - 1];
      }
    }
  }

  /** `sep.join(parts)` for a one-character separator. */
  function Join(sep: char, parts: seq<string>): string
  {
    if parts == [] then ""
    else if |parts| == 1 then parts[0]
    else parts[0] + [sep] + Join(sep, parts[1..])
  }

  /** Joining one more part in front puts it and a separator first. */
  lemma JoinCons(sep: char, first: string, parts: seq<string>)
    requires parts != []
    ensures Join(sep, [first] + parts) == (first + [sep]) + Join(sep, parts)
  {
    assert ([first] + parts)[1..] == parts;
  }

  /** Splitting a join on its separator gives back the parts, as long as no
      part holds the separator. */
  lemma {:induction false} SplitJoin(sep: char, parts: seq<string>)
    requires parts != []
    requires forall k :: 0 <= k < |parts| ==> sep !in parts[k]
    ensures Split(Join(sep, parts), sep) == parts
  {
    if |parts| > 1 {
      var rest := Join(sep, parts[1..]);
      FindAfter(parts[0], sep, rest);
      var s := parts[0] + [sep] + rest;
      assert Join(sep, parts) == s;
      assert s[..|parts[0]|] == parts[0];
      assert s[|parts[0]| + 1..] == rest;
      assert Split(s, sep) == [parts[0]] + Split(rest, sep);
      SplitJoin(sep, parts[1..]);
      assert [parts[0]] + parts[1..] == parts;
    }
  }

  /** A character other than the separator occurs in a join only if it
      occurs in one of the parts. */
  lemma {:induction false} JoinLacks(sep: char, parts: seq<string>, c: char)
    requires c != sep
    requires forall k :: 0 <= k < |parts| ==> c !in parts[k]
    ensures c !in Join(sep, parts)
  {
    if |parts| > 1 {
      JoinLacks(sep, parts[1..], c);
    }
  }

  /** Every character of `s` is `c`. */
  predicate Only(s: string, c: char)
  {
    forall k :: 0 <= k < |s| ==> s[k] == c
  }

  /** How many copies of `c` open `s`: the index of the first other
      character, or `|s|` when there is none. */
  function Lead(s: string, c: char): (n: nat)
    ensures n <= |s| && Only(s[..n], c)
    ensures n == |s| || s[n] != c
    decreases |s|
  {
    if s != [] && s[0] == c then
      var n := Lead(s[1..], c);
      assert s[..n + 1] == [c] + s[1..][..n];
      n + 1
    else 0
  }

  /** How many copies of `c` close `s`. */
  function Trail(s: string, c: char): (n: nat)
    ensures n <= |s| && Only(s[|s| - n..], c)
    ensures n == |s| || s[|s| - n - 1] != c
    decreases |s|
  {
    if s != [] && s[|s| - 1] == c then
      var n := Trail(s[..|s| - 1], c);
      assert s[|s| - (n + 1)..] == s[..|s| - 1][|s| - 1 - n..] + [c];
      n + 1
    else 0
  }

  /** The run of `c` in front of `s` is the one that ends at the first
      other character. */
  lemma {:induction false} LeadAt(s: string, c: char, i: nat)
    requires i <= |s| && Only(s[..i], c)
    requires i == |s| || s[i] != c
    ensures Lead(s, c) == i
    decreases i
  {
    if i > 0 {
      assert s[0] == s[..i][0] == c;
      assert s[1..][..i - 1] == s[..i][1..];
      LeadAt(s[1..], c, i - 1);
    }
  }

  /** The run of `c` behind `s` is the one that starts after the last
      other character. */
  lemma {:induction false} TrailAt(s: string, c: char, i: nat)
    requires i <= |s| && Only(s[|s| - i..], c)
    requires i == |s| || s[|s| - i - 1] != c
    ensures Trail(s, c) == i
    decreases i
  {
    if i > 0 {
      var t := s[..|s| - 1];
      assert s[|s| - 1] == s[|s| - i..][i - 1] == c;
      assert t[|t| - (i - 1)..] == s[|s| - i..][..i - 1];
      TrailAt(t, c, i - 1);
    }
  }

  /** `s.lstrip(c)` for a single character. */
  function LStrip(s: string, c: char): (r: string)
    ensures |r| <= |s| && r == s[|s| - |r|..]
    ensures r == [] || r[0] != c
    ensures Only(s[..|s| - |r|], c)
  {
    s[Lead(s, c)..]
  }

  /** `s.rstrip(c)` for a single character. */
  function RStrip(s: string, c: char): (r: string)
    ensures |r| <= |s| && r == s[..|r|]
    ensures r == [] || r[|r| - 1] != c
    ensures Only(s[|r|..], c)
  {
    s[..|s| - Trail(s, c)]
  }

  /** `s.strip(c)` for a single character. */
  function Strip(s: string, c: char): (r: string)
    ensures r == [] || (r[0] != c && r[|r| - 1] != c)
    ensures StrippedFrom(s, c, Lead(s, c), r)
  {
    StripPlaced(s, c);
    LStrip(RStrip(s, c), c)
  }

  /** `r` is what is left of `s` after the `lead` characters in front and
      every character behind it, all of them `c`, are taken away. */
  predicate StrippedFrom(s: string, c: char, lead: int, r: string)
  {
    && 0 <= lead && lead + |r| <= |s| && r == s[lead..lead + |r|]
    && Only(s[..lead], c) && Only(s[lead + |r|..], c)
  }

  lemma StripPlaced(s: string, c: char)
    ensures StrippedFrom(s, c, Lead(s, c), LStrip(RStrip(s, c), c))
  {
    var t := RStrip(s, c);
    if Lead(t, c) < |t| {
      StripPlacedSome(s, t, c);
    } else {
      StripPlacedNone(s, t, c);
    }
  }

  lemma StripPlacedSome(s: string, t: string, c: char)
    requires t == RStrip(s, c) && Lead(t, c) < |t|
    ensures StrippedFrom(s, c, Lead(s, c), LStrip(t, c))
  {
    var i := Lead(t, c);
    HeadPlaced(s, t, c, i);
    LeadAt(s, c, i);
  }

  lemma StripPlacedNone(s: string, t: string, c: char)
    requires t == RStrip(s, c) && Lead(t, c) == |t|
    ensures StrippedFrom(s, c, Lead(s, c), LStrip(t, c))
  {
    assert t[..|t|] == t;
    HeadAllC(s, t, c);
    LeadAt(s, c, |s|);
  }

  /** What is left of the head `t` of `s` behind its leading run of `c`
      keeps its place in `s`. */
  lemma HeadPlaced(s: string, t: string, c: char, i: nat)
    requires |t| <= |s| && t == s[..|t|] && Only(s[|t|..], c)
    requires i < |t| && Only(t[..i], c) && t[i] != c
    ensures StrippedFrom(s, c, i, t[i..])
    ensures Only(s[..i], c) && s[i] != c
  {
    assert s[..i] == t[..i];
    assert t[i..] == s[i..|t|];
  }

  /** A head made of `c` alone ahead of a tail made of `c` alone is
      stripped to nothing. */
  lemma HeadAllC(s: string, t: string, c: char)
    requires |t| <= |s| && t == s[..|t|] && Only(s[|t|..], c) && Only(t, c)
    ensures Only(s, c) && StrippedFrom(s, c, |s|, [])
  {
    assert s == t + s[|t|..];
    assert s[..|s|] == s && s[|s|..] == [];
  }

  /** `s.startswith(p)`. */
  predicate StartsWith(s: string, p: string)
  {
    |p| <= |s| && s[..|p|] == p
  }

  /** `s.endswith(p)`. */
  predicate EndsWith(s: string, p: string)
  {
    |p| <= |s| && s[|s| - |p|..] == p
  }

  /** `sub in s` for strings: `sub` occurs somewhere in `s`. */
  predicate Occurs(s: string, sub: string)
    decreases |s|
  {
    StartsWith(s, sub) || (s != [] && Occurs(s[1..], sub))
  }

  /** `s.replace(pat, repl)`: every occurrence of `pat`, scanning left to
      right without overlaps, becomes `repl`; an empty `pat` inserts `repl`
      around every character. */
  function Replace(s: string, pat: string, repl: string): string
    decreases |s|
  {
    if pat == [] then
      if s == [] then repl else repl + [s[0]] + Replace(s[1..], pat, repl)
    else if |s| < |pat| then s
    else if s[..|pat|] == pat then repl + Replace(s[|pat|..], pat, repl)
    else [s[0]] + Replace(s[1..], pat, repl)
  }

  /** Replacing a pattern that does not occur changes nothing. */
  lemma {:induction false} ReplaceAbsent(s: string, pat: string, repl: string)
    requires pat != [] && !Occurs(s, pat)
    ensures Replace(s, pat, repl) == s
  {
    if |s| >= |pat| {
      ReplaceAbsent(s[1..], pat, repl);
      assert s == [s[0]] + s[1..];
    }
  }

  /** A string that starts with the pattern starts the result with the
      replacement, and the rest is replaced on its own. */
  lemma ReplaceLeading(rest: string, pat: string, repl: string)
    requires pat != []
    ensures Replace(pat + rest, pat, repl) == repl + Replace(rest, pat, repl)
  {
    assert (pat + rest)[..|pat|] == pat;
    assert (pat + rest)[|pat|..] == rest;
  }

  predicate IsAsciiUpper(c: char) { 'A' <= c <= 'Z' }

  predicate IsAsciiAlpha(c: char) { 'a' <= c <= 'z' || 'A' <= c <= 'Z' }

  function LowerChar(c: char): char
  {
    if IsAsciiUpper(c) then (c as int + 32) as char else c
  }

  /** `s.lower()` on ASCII text: upper-case letters become lower-case,
      everything else is kept. */
  function Lower(s: string): (r: string)
    ensures |r| == |s|
    ensures forall k :: 0 <= k < |s| ==> r[k] == LowerChar(s[k])
  {
    seq(|s|, k requires 0 <= k < |s| => LowerChar(s[k]))
  }

  /** Text without upper-case letters is its own lower case. */
  lemma LowerKeeps(s: string)
    requires forall k :: 0 <= k < |s| ==> !IsAsciiUpper(s[k])
    ensures Lower(s) == s
  {
  }
}
