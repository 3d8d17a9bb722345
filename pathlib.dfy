/** The part of `pathlib.PurePosixPath` that the canonicaliser uses: the
    `parts` of a path, an optional anchor (the root) followed by the
    slash-separated components, where empty components and `.` are dropped. */
module Pathlib {
  import opened PyStr

  /** A component as `parts` yields it after the anchor. */
  predicate IsSegment(s: string)
  {
    s != "" && s != "." && '/' !in s
  }

  /** The root that `posixpath.splitroot` finds: none for a relative path,
      `//` for exactly two leading slashes, `/` for one or three and more. */
  function Root(path: string): (root: string)
    ensures root == "" || root == "/" || root == "//"
    ensures root == "" <==> !StartsWith(path, "/")
    ensures root == "//" <==> StartsWith(path, "//") && !StartsWith(path, "///")
  {
    if !StartsWith(path, "/") then ""
    else if !StartsWith(path, "//") || StartsWith(path, "///") then "/"
    else "//"
  }

  /** The pieces of `rel.split("/")` that pathlib keeps: every empty piece
      and every `.` is dropped, the others stay in order. */
  function DropTrivial(pieces: seq<string>): (r: seq<string>)
    ensures forall k :: 0 <= k < |r| ==> r[k] != "" && r[k] != "." && r[k] in pieces
    ensures forall x :: x in r <==> x in pieces && x != "" && x != "."
  {
    if pieces == [] then []
    else if pieces[0] == "" || pieces[0] == "." then DropTrivial(pieces[1..])
    else
      var rest := DropTrivial(pieces[1..]);
      assert forall k :: 1 <= k < 1 + |rest| ==> ([pieces[0]] + rest)[k] == rest[k - 1];
      [pieces[0]] + rest
  }

  /** The components after the anchor. */
  function Segments(path: string): (r: seq<string>)
    ensures forall k :: 0 <= k < |r| ==> IsSegment(r[k])
  {
    DropTrivial(Split(path[|Root(path)|..], '/'))
  }

  /** `PurePosixPath(path).parts`: the anchor, if any, then the components. */
  function Parts(path: string): (r: seq<string>)
    ensures |r| == |Segments(path)| + (if StartsWith(path, "/") then 1 else 0)
    ensures forall k :: 0 <= k < |r| ==> IsSegment(r[k]) || (k == 0 && r[k] == Root(path) != "")
  {
    (if Root(path) == "" then [] else [Root(path)]) + Segments(path)
  }

  /** Dropping the trivial pieces of a concatenation drops them from each
      half, so the pieces kept stay in their order. */
  lemma {:induction false} DropTrivialAppend(a: seq<string>, b: seq<string>)
    ensures DropTrivial(a + b) == DropTrivial(a) + DropTrivial(b)
  {
    if a != [] {
      assert (a + b)[1..] == a[1..] + b;
      DropTrivialAppend(a[1..], b);
    } else {
      assert a + b == b;
    }
  }

  /** A list that has only components passes through `DropTrivial` unchanged. */
  lemma {:induction false} DropTrivialKeeps(parts: seq<string>)
    requires forall k :: 0 <= k < |parts| ==> IsSegment(parts[k])
    ensures DropTrivial(parts) == parts
  {
    if parts != [] {
      DropTrivialKeeps(parts[1..]);
    }
  }

  /** A character other than the slash is in a component only if it is in
      the path. */
  lemma SegmentsLack(path: string, c: char)
    requires c != '/' && c !in path
    ensures forall k :: 0 <= k < |Segments(path)| ==> c !in Segments(path)[k]
  {
    var pieces := Split(path[|Root(path)|..], '/');
    SplitLacks(path[|Root(path)|..], '/', c);
  }

  lemma {:induction false} SplitLacks(s: string, sep: char, c: char)
    requires c !in s
    ensures forall k :: 0 <= k < |Split(s, sep)| ==> c !in Split(s, sep)[k]
    decreases |s|
  {
    var i := Find(s, sep);
    if 0 <= i {
      assert s == s[..i] + [sep] + s[i + 1..];
      SplitLacks(s[i + 1..], sep, c);
    }
  }

  /** The components of a path made by joining components with slashes,
      behind no root, one slash or two, are those components. */
  lemma SegmentsOfJoin(parts: seq<string>, root: string)
    requires root == "" || root == "/" || root == "//"
    requires forall k :: 0 <= k < |parts| ==> IsSegment(parts[k])
    ensures Segments(root + Join('/', parts)) == parts
  {
    var joined := Join('/', parts);
    JoinShape(parts);
    var path := root + joined;
    RootBeforeJoin(joined, root);
    assert path[|Root(path)|..] == joined;
    if parts == [] {
      assert Split("", '/') == [""];
      assert DropTrivial([""]) == [];
    } else {
      SplitJoin('/', parts);
      DropTrivialKeeps(parts);
    }
  }

  /** The components of a path made by joining pieces without slashes,
      behind no root, one slash or two, are the pieces that are neither
      empty nor `.`. */
  lemma SegmentsOfPieces(pieces: seq<string>, root: string)
    requires root == "" || root == "/" || root == "//"
    requires pieces != [] && forall k :: 0 <= k < |pieces| ==> '/' !in pieces[k]
    requires Join('/', pieces) == "" || Join('/', pieces)[0] != '/'
    ensures Segments(root + Join('/', pieces)) == DropTrivial(pieces)
  {
    var joined := Join('/', pieces);
    var path := root + joined;
    RootBeforeJoin(joined, root);
    assert path[|Root(path)|..] == joined;
    SplitJoin('/', pieces);
  }

  lemma RootBeforeJoin(joined: string, root: string)
    requires root == "" || root == "/" || root == "//"
    requires joined == "" || joined[0] != '/'
    ensures Root(root + joined) == root
  {
    var path := root + joined;
    if root == "/" {
      assert path[..1] == "/";
      assert !StartsWith(path, "//");
    } else if root == "//" {
      assert path[..2] == "//";
      assert !StartsWith(path, "///");
    } else if joined != "" {
      assert path[..1] == [joined[0]];
    }
  }

  /** A join of components is empty exactly when there are none, and it
      neither starts nor ends with a slash. */
  lemma {:induction false} JoinShape(parts: seq<string>)
    requires forall k :: 0 <= k < |parts| ==> IsSegment(parts[k])
    ensures var j := Join('/', parts);
      (j == "" <==> parts == []) && (j != "" ==> j[0] != '/' && j[|j| - 1] != '/')
  {
    if |parts| > 1 {
      JoinShape(parts[1..]);
    }
  }
}
