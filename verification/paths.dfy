/** POSIX path handling as Python's `posixpath` does it (the separator is '/'):
    `join` of two components, `basename`, `splitext`, `normpath`, and the
    "parent segment" rule the geodatabase discoverer uses to name a container. */
module Paths {
  import opened Outcomes
  import opened Strings

  const Sep: char := '/'

  function Last<T>(s: seq<T>): T
    requires |s| > 0
  {
    s[|s| - 1]
  }

  function DropLast<T>(s: seq<T>): seq<T>
    requires |s| > 0
  {
    s[..|s| - 1]
  }

  /** A name a directory listing can hold: non-empty, no separator, not "." or "..". */
  predicate PlainName(n: string) {
    n != "" && Sep !in n && n != "." && n != ".."
  }

  /** `os.path.join(a, b)`: an absolute `b` replaces `a`; otherwise a separator is
      inserted unless `a` is empty or already ends with one. */
  function PathJoin(a: string, b: string): (p: string)
    ensures EndsWith(p, b)
  {
    if StartsWith(b, "/") then b
    else if a == "" || EndsWith(a, "/") then a + b
    else a + "/" + b
  }

  /** `os.path.basename(p)`: everything after the last separator. */
  function Basename(p: string): (b: string)
    ensures Sep !in b
  {
    SplitPiecesFree(p, Sep);
    Last(Split(p, Sep))
  }

  /** The basename is exactly what follows the last separator: the whole path when
      it has none. */
  lemma BasenameAfterLastSep(p: string)
    ensures Basename(p) == p[RFind(p, Sep) + 1..]
  {
    if RFind(p, Sep) >= 0 {
      BasenameAfterFound(p);
    } else {
      BasenameNotFound(p);
    }
  }

  /** With a separator in the path, the basename follows the last one. */
  lemma BasenameAfterFound(p: string)
    requires RFind(p, Sep) >= 0
    ensures Basename(p) == p[RFind(p, Sep) + 1..]
  {
    var i := RFind(p, Sep);
    AfterLastFree(p, i);
    BasenameAt(p, i);
  }

  /** Without a separator in the path, the basename is the path. */
  lemma BasenameNotFound(p: string)
    requires RFind(p, Sep) == -1
    ensures Basename(p) == p[RFind(p, Sep) + 1..]
  {
    AfterLastFree(p, -1);
    assert p[0..] == p;
    BasenameWithoutSep(p);
  }

  /** The basename of a path whose separator at `i` is its last. */
  lemma BasenameAt(p: string, i: nat)
    requires i < |p| && p[i] == Sep && Sep !in p[i + 1..]
    ensures Basename(p) == p[i + 1..]
  {
    var a, b := p[..i], p[i + 1..];
    assert p == a + [Sep] + b;
    BasenameAfterSep(a, b);
  }

  /** Nothing after the last separator is a separator. */
  lemma AfterLastFree(p: string, i: int)
    requires -1 <= i < |p|
    requires forall j :: i < j < |p| ==> p[j] != Sep
    ensures Sep !in p[i + 1..]
  {
    var b := p[i + 1..];
    forall j | 0 <= j < |b|
      ensures b[j] != Sep
    {
      assert b[j] == p[i + 1 + j];
    }
  }

  /** A path without a separator is its own basename. */
  lemma BasenameWithoutSep(b: string)
    requires Sep !in b
    ensures Basename(b) == b
  {
    SplitWithout(b, Sep);
  }

  /** The basename of a path with a separator is what follows it, when that holds
      no separator. */
  lemma BasenameAfterSep(a: string, b: string)
    requires Sep !in b
    ensures Basename(a + [Sep] + b) == b
  {
    SplitWithout(b, Sep);
    SplitAround(a, Sep, b);
  }

  /** The basename is the whole final component of the path: a suffix without a
      separator that is the whole path or has a separator right before it. */
  lemma BasenameIsSuffix(p: string)
    ensures EndsWith(p, Basename(p))
    ensures Sep !in Basename(p)
    ensures |Basename(p)| == |p| || p[|p| - |Basename(p)| - 1] == Sep
  {
    BasenameAfterLastSep(p);
  }

  /** Index of the last occurrence of `c` in `s`, or -1 (`str.rfind`). */
  function RFind(s: string, c: char): (i: int)
    ensures -1 <= i < |s|
    ensures 0 <= i ==> s[i] == c
    ensures forall j :: i < j < |s| ==> s[j] != c
    decreases |s|
  {
    if |s| == 0 then -1
    else if s[|s| - 1] == c then |s| - 1
    else RFind(s[..|s| - 1], c)
  }

  predicate AllDots(s: string) {
    forall i :: 0 <= i < |s| ==> s[i] == '.'
  }

  /** `os.path.splitext(name)` for a name without separators: the extension runs
      from the last '.' to the end, unless everything before that dot is dots
      (so ".bashrc" has no extension). */
  function SplitExt(name: string): (parts: (string, string))
    ensures parts.0 + parts.1 == name
    ensures parts.1 == "" || (parts.1[0] == '.' && '.' !in parts.1[1..])
    ensures parts.1 != "" ==> !AllDots(parts.0)
    ensures parts.1 == "" ==> '.' !in name || AllDots(name[..RFind(name, '.')])
  {
    var d := RFind(name, '.');
    if d >= 0 && !AllDots(name[..d]) then
      assert name[..d] + name[d..] == name;
      assert forall j :: 0 <= j < |name[d..]| - 1 ==> name[d..][1..][j] == name[d + 1 + j];
      (name[..d], name[d..])
    else
      (name, "")
  }

  /** `os.path.splitroot` for POSIX: the leading separators `normpath` keeps
      ("", "/" or exactly "//") and the rest of the path. */
  function SplitRoot(p: string): (string, string) {
    if |p| == 0 || p[0] != Sep then ("", p)
    else if |p| == 1 || p[1] != Sep || (|p| >= 3 && p[2] == Sep) then ("/", p[1..])
    else ("//", p[2..])
  }

  /** One step of `normpath`'s component stack: empty and "." components vanish,
      ".." pops a real component, and is kept when there is nothing to pop in a
      relative path (or the top is itself ".."); in an absolute path a leading
      ".." is dropped. */
  function PushComp(stack: seq<string>, comp: string, absolute: bool): seq<string> {
    if comp == "" || comp == "." then stack
    else if comp != ".." || (!absolute && |stack| == 0) || (|stack| > 0 && Last(stack) == "..") then
      stack + [comp]
    else if |stack| > 0 then DropLast(stack)
    else stack
  }

  /** The component stack after pushing `comps` from left to right. */
  function NormComps(comps: seq<string>, absolute: bool): seq<string>
    decreases |comps|
  {
    if |comps| == 0 then []
    else PushComp(NormComps(DropLast(comps), absolute), Last(comps), absolute)
  }

  /** `os.path.normpath(p)`. */
  function NormPath(p: string): string {
    if p == "" then "."
    else
      var (root, rest) := SplitRoot(p);
      var q := root + Join(NormComps(Split(rest, Sep), root != ""), "/");
      if q == "" then "." else q
  }

  /** The name `get_geodbs_to_list` gives a container: the second-to-last segment of
      the normalised path, `normpath(path).split(os.sep)[-2]`, which raises
      IndexError when the normalised path has a single segment. */
  function ParentSegment(path: string): Result<string> {
    var parts := Split(NormPath(path), Sep);
    if |parts| >= 2 then Ok(parts[|parts| - 2]) else Err(IndexOutOfRange)
  }

  /** Components on the stack are never empty or ".", and hold no separator. */
  predicate CleanComps(st: seq<string>) {
    forall k :: 0 <= k < |st| ==> st[k] != "" && st[k] != "." && Sep !in st[k]
  }

  lemma {:induction false} NormCompsClean(comps: seq<string>, absolute: bool)
    requires forall k :: 0 <= k < |comps| ==> Sep !in comps[k]
    ensures CleanComps(NormComps(comps, absolute))
    decreases |comps|
  {
    if |comps| > 0 {
      NormCompsClean(DropLast(comps), absolute);
      assert Sep !in Last(comps);
    }
  }

  /** The leading separators a root keeps, as the empty pieces they split into. */
  function RootPieces(root: string): seq<string> {
    if root == "" then [] else if root == "/" then [""] else ["", ""]
  }

  lemma SplitLeadingSep(x: string)
    ensures Split([Sep] + x, Sep) == [""] + Split(x, Sep)
  {
    assert ([Sep] + x)[1..] == x;
  }

  /** A joined clean stack splits back into the stack. */
  lemma SplitStack(st: seq<string>)
    requires |st| >= 1 && CleanComps(st)
    ensures Split(Join(st, "/"), Sep) == st
  {
    assert [Sep] == "/";
    SplitJoin(st, Sep);
  }

  /** Splitting a root followed by a joined clean stack: the root's empty pieces,
      then the stack. */
  lemma SplitRooted(root: string, st: seq<string>)
    requires root == "" || root == "/" || root == "//"
    requires |st| >= 1 && CleanComps(st)
    ensures Split(root + Join(st, "/"), Sep) == RootPieces(root) + st
  {
    var x := Join(st, "/");
    SplitStack(st);
    if root == "" {
      assert root + x == x;
    } else if root == "/" {
      SplitLeadingSep(x);
    } else {
      SplitLeadingSep([Sep] + x);
      SplitLeadingSep(x);
      assert [Sep] + ([Sep] + x) == root + x;
    }
  }

  /** Appending to a non-empty path does not change its root, provided a path made
      only of separators is not extended by yet another separator. */
  lemma SplitRootAppend(p: string, x: string)
    requires |p| > 0 && |x| > 0
    requires EndsWith(p, "/") ==> x[0] != Sep
    ensures SplitRoot(p + x).0 == SplitRoot(p).0
    ensures SplitRoot(p + x).1 == SplitRoot(p).1 + x
  {
    var q := p + x;
    assert q[0] == p[0];
    if |p| >= 3 {
      assert q[1] == p[1] && q[2] == p[2];
      assert q[1..] == p[1..] + x && q[2..] == p[2..] + x;
    } else if |p| == 2 {
      assert q[1] == p[1] && q[2] == x[0];
      assert q[1..] == p[1..] + x && q[2..] == p[2..] + x;
    } else {
      assert q[1] == x[0];
      assert q[1..] == p[1..] + x;
    }
  }

  /** The pieces of `rest` after a plain name is appended the way `PathJoin` does. */
  lemma SplitJoined(rest: string, joined: string, d: string)
    requires PlainName(d)
    requires joined == rest + "/" + d || ((rest == "" || EndsWith(rest, "/")) && joined == rest + d)
    ensures NormComps(Split(joined, Sep), true) == NormComps(Split(rest, Sep), true) + [d]
    ensures NormComps(Split(joined, Sep), false) == NormComps(Split(rest, Sep), false) + [d]
  {
    SplitWithout(d, Sep);
    var sr := Split(rest, Sep);
    if joined == rest + "/" + d {
      SplitAround(rest, Sep, d);
      assert rest + [Sep] + d == joined;
      assert DropLast(sr + [d]) == sr;
    } else if rest == "" {
      assert joined == d;
      assert Split(joined, Sep) == [d];
      assert DropLast([d]) == [];
      assert DropLast(sr) == [];
    } else {
      var x := rest[..|rest| - 1];
      assert rest == x + [Sep] + "";
      assert joined == x + [Sep] + d;
      SplitAround(x, Sep, "");
      SplitAround(x, Sep, d);
      var sx := Split(x, Sep);
      assert DropLast(sx + [""]) == sx;
      assert DropLast(sx + [d]) == sx;
    }
  }

  /** The stack `normpath` builds for a non-empty path. */
  function StackOf(p: string): seq<string> {
    NormComps(Split(SplitRoot(p).1, Sep), SplitRoot(p).0 != "")
  }

  /** The pieces of a normalised non-empty path: "." alone when nothing is left,
      otherwise the root's empty pieces followed by the stack (or by one empty
      piece when only the root is left). */
  lemma NormPathPieces(p: string)
    requires p != ""
    ensures CleanComps(StackOf(p))
    ensures var root := SplitRoot(p).0;
            var st := StackOf(p);
            Split(NormPath(p), Sep) ==
              if root == "" && st == [] then ["."]
              else RootPieces(root) + (if st == [] then [""] else st)
  {
    var root := SplitRoot(p).0;
    var rest := SplitRoot(p).1;
    var st := StackOf(p);
    SplitPiecesFree(rest, Sep);
    NormCompsClean(Split(rest, Sep), root != "");
    if st != [] {
      SplitRooted(root, st);
    } else if root == "" {
      SplitWithout(".", Sep);
    } else if root == "/" {
      SplitLeadingSep("");
      assert NormPath(p) == [Sep] + "";
    } else {
      SplitLeadingSep([Sep] + "");
      SplitLeadingSep("");
      assert NormPath(p) == [Sep] + ([Sep] + "");
    }
  }

  /** Joining a plain name onto a directory path keeps the root and pushes the name
      onto the stack. */
  lemma JoinPushes(dirpath: string, d: string)
    requires dirpath != "" && PlainName(d)
    ensures SplitRoot(PathJoin(dirpath, d)).0 == SplitRoot(dirpath).0
    ensures StackOf(PathJoin(dirpath, d)) == StackOf(dirpath) + [d]
  {
    assert d[0] in d;
    assert !StartsWith(d, "/");
    if EndsWith(dirpath, "/") {
      JoinAfterSep(dirpath, d);
    } else {
      assert PathJoin(dirpath, d) == dirpath + ("/" + d);
      JoinInsertingSep(dirpath, d);
    }
  }

  lemma JoinAfterSep(dirpath: string, d: string)
    requires dirpath != "" && PlainName(d) && EndsWith(dirpath, "/")
    requires PathJoin(dirpath, d) == dirpath + d
    ensures SplitRoot(dirpath + d).0 == SplitRoot(dirpath).0
    ensures StackOf(dirpath + d) == StackOf(dirpath) + [d]
  {
    assert d[0] in d;
    var rest := SplitRoot(dirpath).1;
    SplitRootAppend(dirpath, d);
    if rest != "" {
      assert rest[|rest| - 1] == dirpath[|dirpath| - 1];
      assert EndsWith(rest, "/");
    }
    SplitJoined(rest, rest + d, d);
  }

  lemma JoinInsertingSep(dirpath: string, d: string)
    requires dirpath != "" && PlainName(d) && !EndsWith(dirpath, "/")
    ensures SplitRoot(dirpath + ("/" + d)).0 == SplitRoot(dirpath).0
    ensures StackOf(dirpath + ("/" + d)) == StackOf(dirpath) + [d]
  {
    var rest := SplitRoot(dirpath).1;
    SplitRootAppend(dirpath, "/" + d);
    assert rest + ("/" + d) == rest + "/" + d;
    SplitJoined(rest, rest + "/" + d, d);
  }

  /** The name recorded for a container directory `d` found in the walk entry for
      `dirpath` is the last segment of the normalised `dirpath`, i.e. the name of
      the directory holding the container; when `dirpath` normalises to "." the
      lookup raises IndexError. */
  lemma ContainerNameIsParent(dirpath: string, d: string)
    requires PlainName(d)
    ensures ParentSegment(PathJoin(dirpath, d)) ==
            if NormPath(dirpath) == "." then Err(IndexOutOfRange)
            else Ok(Last(Split(NormPath(dirpath), Sep)))
  {
    if dirpath == "" {
      NameUnderEmpty(d);
    } else {
      NameUnderNonEmpty(dirpath, d);
    }
  }

  lemma NameUnderEmpty(d: string)
    requires PlainName(d)
    ensures ParentSegment(PathJoin("", d)) == Err(IndexOutOfRange)
  {
    assert d[0] in d;
    assert !StartsWith(d, "/");
    assert PathJoin("", d) == d;
    SplitWithout(d, Sep);
    assert SplitRoot(d) == ("", d);
    assert DropLast([d]) == [] && Last([d]) == d;
    assert NormComps([d], false) == PushComp([], d, false);
    assert StackOf(d) == [d];
    NormPathPieces(d);
  }

  lemma NameUnderNonEmpty(dirpath: string, d: string)
    requires dirpath != "" && PlainName(d)
    ensures ParentSegment(PathJoin(dirpath, d)) ==
            if NormPath(dirpath) == "." then Err(IndexOutOfRange)
            else Ok(Last(Split(NormPath(dirpath), Sep)))
  {
    var root := SplitRoot(dirpath).0;
    var st := StackOf(dirpath);
    var parts := Split(NormPath(PathJoin(dirpath, d)), Sep);
    var before := Split(NormPath(dirpath), Sep);
    JoinedPieces(dirpath, d);
    NormPathPieces(dirpath);
    PiecesParent(root, st, d, parts, before);
    SplitIsDot(NormPath(dirpath));
  }

  lemma SplitIsDot(x: string)
    ensures Split(x, Sep) == ["."] <==> x == "."
  {
    SplitWithout(".", Sep);
    JoinSplit(x, Sep);
  }

  /** The bookkeeping behind the lemma above, on the pieces alone. */
  lemma PiecesParent(root: string, st: seq<string>, d: string, parts: seq<string>, before: seq<string>)
    requires root == "" || root == "/" || root == "//"
    requires CleanComps(st)
    requires parts == RootPieces(root) + (st + [d])
    requires before == (if root == "" && st == [] then ["."]
                        else RootPieces(root) + (if st == [] then [""] else st))
    ensures |parts| >= 2 <==> before != ["."]
    ensures |parts| >= 2 ==> parts[|parts| - 2] == Last(before)
  {
    if st != [] {
      assert st[0] != ".";
    }
  }

  lemma JoinedPieces(dirpath: string, d: string)
    requires dirpath != "" && PlainName(d)
    ensures Split(NormPath(PathJoin(dirpath, d)), Sep) ==
            RootPieces(SplitRoot(dirpath).0) + (StackOf(dirpath) + [d])
  {
    var j := PathJoin(dirpath, d);
    JoinPushes(dirpath, d);
    assert j != "" by {
      assert EndsWith(j, d);
    }
    NormPathPieces(j);
  }
}
