/** The path discoverers: `get_files_to_list`, which keeps the files whose name
    ends with one of the requested suffixes, and `get_geodbs_to_list`, which keeps
    the directories whose name ends with the container suffix.

    The directory tree is not read: what `os.walk(root)` yields for each root is
    given, as a sequence of `(dirpath, dirnames, filenames)` entries in walk order. */
module Discovery {
  import opened Outcomes
  import opened Strings
  import opened Paths

  /** One triple yielded by `os.walk`. */
  datatype WalkEntry = WalkEntry(dirpath: string, dirnames: seq<string>, filenames: seq<string>)

  /** What `os.walk(root)` yields for one root, in order. */
  type Walk = seq<WalkEntry>

  /** The suffixes of `helper_functions.py` lines 22, 24 and 25, kept literally:
      some carry a dot and some do not, and the upper-case JPEG forms are listed
      separately because the test is case-sensitive. */
  const ImageExtensions: seq<string> :=
    [".png", ".jpg", ".cr2", "gif", "bmp", ".tif", "webp", ".heic", ".jpeg", ".JPEG", ".JPG"]
  const ShapefileExtensions: seq<string> := [".shp", ".gpkg"]
  const TableExtensions: seq<string> := [".csv", ".xlsx", ".xls"]

  /** The default container suffix of `get_geodbs_to_list` (no dot). */
  const GeodbSuffix: string := "gdb"

  /** Entries and names as `os.walk` produces them: listed names are plain. */
  predicate WellFormedWalk(entries: seq<WalkEntry>) {
    forall e :: 0 <= e < |entries| ==>
      (forall k :: 0 <= k < |entries[e].dirnames| ==> PlainName(entries[e].dirnames[k])) &&
      (forall k :: 0 <= k < |entries[e].filenames| ==> PlainName(entries[e].filenames[k]))
  }

  /** The entries of all walks, root after root. */
  function AllEntries(walks: seq<Walk>): seq<WalkEntry>
    decreases |walks|
  {
    if |walks| == 0 then [] else AllEntries(DropLast(walks)) + Last(walks)
  }

  /** `f` ends with at least one of the suffixes. */
  predicate EndsWithAny(f: string, suffixes: seq<string>) {
    exists i :: 0 <= i < |suffixes| && EndsWith(f, suffixes[i])
  }

  /** The suffixes `f` ends with, in list order. */
  function MatchingSuffixes(f: string, suffixes: seq<string>): (m: seq<string>)
    ensures forall i :: 0 <= i < |m| ==> EndsWith(f, m[i]) && m[i] in suffixes
    ensures forall i :: 0 <= i < |suffixes| && EndsWith(f, suffixes[i]) ==> suffixes[i] in m
    decreases |suffixes|
  {
    if |suffixes| == 0 then []
    else
      var m := MatchingSuffixes(f, DropLast(suffixes));
      assert forall i :: 0 <= i < |suffixes| - 1 ==> suffixes[i] == DropLast(suffixes)[i];
      if EndsWith(f, Last(suffixes)) then m + [Last(suffixes)] else m
  }

  /** The inner loop of `get_files_to_list` for one file: one path per suffix the
      name ends with (it does not stop at the first). */
  function Hits(dirpath: string, f: string, suffixes: seq<string>): seq<string>
    decreases |suffixes|
  {
    if |suffixes| == 0 then []
    else Hits(dirpath, f, DropLast(suffixes)) +
         (if EndsWith(f, Last(suffixes)) then [PathJoin(dirpath, f)] else [])
  }

  /** The paths listed for the files of one directory, file by file. */
  function FileHits(dirpath: string, files: seq<string>, suffixes: seq<string>): seq<string>
    decreases |files|
  {
    if |files| == 0 then []
    else FileHits(dirpath, DropLast(files), suffixes) + Hits(dirpath, Last(files), suffixes)
  }

  /** The paths listed for a sequence of walk entries, entry by entry. */
  function EntriesFiles(entries: seq<WalkEntry>, suffixes: seq<string>): seq<string>
    decreases |entries|
  {
    if |entries| == 0 then []
    else EntriesFiles(DropLast(entries), suffixes) +
         FileHits(Last(entries).dirpath, Last(entries).filenames, suffixes)
  }

  /** The innermost loop of `get_files_to_list`: every suffix is tried against the
      file name, and each one it ends with appends the joined path. */
  method ListFile(dirpath: string, f: string, suffixes: seq<string>) returns (hits: seq<string>)
    ensures hits == Hits(dirpath, f, suffixes)
  {
    hits := [];
    for j := 0 to |suffixes|
      invariant hits == Hits(dirpath, f, suffixes[..j])
    {
      assert DropLast(suffixes[..j + 1]) == suffixes[..j];
      if EndsWith(f, suffixes[j]) {
        hits := hits + [PathJoin(dirpath, f)];
      }
    }
    assert suffixes[..|suffixes|] == suffixes;
  }

  /** The loop over the file names of one walk entry. */
  method ListEntry(entry: WalkEntry, suffixes: seq<string>) returns (hits: seq<string>)
    ensures hits == FileHits(entry.dirpath, entry.filenames, suffixes)
  {
    hits := [];
    for k := 0 to |entry.filenames|
      invariant hits == FileHits(entry.dirpath, entry.filenames[..k], suffixes)
    {
      var h := ListFile(entry.dirpath, entry.filenames[k], suffixes);
      assert DropLast(entry.filenames[..k + 1]) == entry.filenames[..k];
      hits := hits + h;
    }
    assert entry.filenames[..|entry.filenames|] == entry.filenames;
  }

  /** The loop over the entries one root's walk yields. */
  method ListWalk(walk: Walk, suffixes: seq<string>) returns (hits: seq<string>)
    ensures hits == EntriesFiles(walk, suffixes)
  {
    hits := [];
    for e := 0 to |walk|
      invariant hits == EntriesFiles(walk[..e], suffixes)
    {
      var h := ListEntry(walk[e], suffixes);
      assert DropLast(walk[..e + 1]) == walk[..e];
      hits := hits + h;
    }
    assert walk[..|walk|] == walk;
  }

  /** Listing entries in two stretches lists the stretches one after the other. */
  lemma {:induction false} EntriesFilesAppend(a: seq<WalkEntry>, b: seq<WalkEntry>, suffixes: seq<string>)
    ensures EntriesFiles(a + b, suffixes) == EntriesFiles(a, suffixes) + EntriesFiles(b, suffixes)
    decreases |b|
  {
    if |b| > 0 {
      assert DropLast(a + b) == a + DropLast(b);
      EntriesFilesAppend(a, DropLast(b), suffixes);
    } else {
      assert a + b == a;
    }
  }

  /** `get_files_to_list(root_dirs, files_endwith)`: the roots in order, each walked
      in `os.walk` order. */
  method GetFilesToList(walks: seq<Walk>, suffixes: seq<string>) returns (paths: seq<string>)
    ensures paths == EntriesFiles(AllEntries(walks), suffixes)
  {
    paths := [];
    for r := 0 to |walks|
      invariant paths == EntriesFiles(AllEntries(walks[..r]), suffixes)
    {
      var h := ListWalk(walks[r], suffixes);
      assert DropLast(walks[..r + 1]) == walks[..r];
      EntriesFilesAppend(AllEntries(walks[..r]), walks[r], suffixes);
      paths := paths + h;
    }
    assert walks[..|walks|] == walks;
  }

  /** One file contributes its path once per suffix it ends with, and nothing else. */
  lemma {:induction false} HitsCount(dirpath: string, f: string, suffixes: seq<string>)
    ensures |Hits(dirpath, f, suffixes)| == |MatchingSuffixes(f, suffixes)|
    ensures forall x :: x in Hits(dirpath, f, suffixes) ==> x == PathJoin(dirpath, f)
    decreases |suffixes|
  {
    if |suffixes| > 0 {
      HitsCount(dirpath, f, DropLast(suffixes));
    }
  }

  /** A file is listed at all exactly when it ends with some suffix. */
  lemma HitsNonEmpty(dirpath: string, f: string, suffixes: seq<string>)
    ensures Hits(dirpath, f, suffixes) != [] <==> EndsWithAny(f, suffixes)
  {
    HitsCount(dirpath, f, suffixes);
    var m := MatchingSuffixes(f, suffixes);
    if m != [] {
      assert m[0] in suffixes;
      var i :| 0 <= i < |suffixes| && suffixes[i] == m[0];
      assert EndsWith(f, suffixes[i]);
    }
    if EndsWithAny(f, suffixes) {
      var i :| 0 <= i < |suffixes| && EndsWith(f, suffixes[i]);
      assert suffixes[i] in m;
    }
  }

  /** The paths one file contributes: its own path, when it ends with some suffix. */
  lemma HitsMembers(dirpath: string, f: string, suffixes: seq<string>, p: string)
    ensures p in Hits(dirpath, f, suffixes) <==> EndsWithAny(f, suffixes) && p == PathJoin(dirpath, f)
  {
    HitsCount(dirpath, f, suffixes);
    HitsNonEmpty(dirpath, f, suffixes);
    var h := Hits(dirpath, f, suffixes);
    if EndsWithAny(f, suffixes) {
      assert h[0] in h;
    }
  }

  /** `p` is listed for file `k` of entry `e`. */
  predicate ListedAt(entries: seq<WalkEntry>, suffixes: seq<string>, p: string, e: int, k: int) {
    0 <= e < |entries| && FileListedAt(entries[e].dirpath, entries[e].filenames, suffixes, p, k)
  }

  /** `p` is listed for file `k` of a directory. */
  predicate FileListedAt(dirpath: string, files: seq<string>, suffixes: seq<string>, p: string, k: int) {
    0 <= k < |files| && EndsWithAny(files[k], suffixes) && p == PathJoin(dirpath, files[k])
  }

  lemma {:induction false} FileHitsMembers(dirpath: string, files: seq<string>, suffixes: seq<string>, p: string)
    ensures p in FileHits(dirpath, files, suffixes) <==> exists k :: FileListedAt(dirpath, files, suffixes, p, k)
    decreases |files|
  {
    if |files| > 0 {
      FileHitsMembers(dirpath, DropLast(files), suffixes, p);
      HitsMembers(dirpath, files[|files| - 1], suffixes, p);
      FileHitsStep(dirpath, files, suffixes, p);
      if p in FileHits(dirpath, files, suffixes) {
        FileListedGrows(dirpath, files, suffixes, p);
      }
      if exists k :: FileListedAt(dirpath, files, suffixes, p, k) {
        FileListedShrinks(dirpath, files, suffixes, p);
      }
    }
  }

  lemma FileHitsStep(dirpath: string, files: seq<string>, suffixes: seq<string>, p: string)
    requires |files| > 0
    ensures p in FileHits(dirpath, files, suffixes) <==>
            p in FileHits(dirpath, DropLast(files), suffixes) || p in Hits(dirpath, files[|files| - 1], suffixes)
  {
  }

  lemma FileListedGrows(dirpath: string, files: seq<string>, suffixes: seq<string>, p: string)
    requires |files| > 0
    requires p in FileHits(dirpath, DropLast(files), suffixes) <==>
             exists k :: FileListedAt(dirpath, DropLast(files), suffixes, p, k)
    requires p in Hits(dirpath, files[|files| - 1], suffixes) <==>
             EndsWithAny(files[|files| - 1], suffixes) && p == PathJoin(dirpath, files[|files| - 1])
    requires p in FileHits(dirpath, DropLast(files), suffixes) || p in Hits(dirpath, files[|files| - 1], suffixes)
    ensures exists k :: FileListedAt(dirpath, files, suffixes, p, k)
  {
    if p in FileHits(dirpath, DropLast(files), suffixes) {
      var k :| FileListedAt(dirpath, DropLast(files), suffixes, p, k);
      assert FileListedAt(dirpath, files, suffixes, p, k);
    } else {
      assert FileListedAt(dirpath, files, suffixes, p, |files| - 1);
    }
  }

  lemma FileListedShrinks(dirpath: string, files: seq<string>, suffixes: seq<string>, p: string)
    requires |files| > 0
    requires p in FileHits(dirpath, DropLast(files), suffixes) <==>
             exists k :: FileListedAt(dirpath, DropLast(files), suffixes, p, k)
    requires p in Hits(dirpath, files[|files| - 1], suffixes) <==>
             EndsWithAny(files[|files| - 1], suffixes) && p == PathJoin(dirpath, files[|files| - 1])
    requires exists k :: FileListedAt(dirpath, files, suffixes, p, k)
    ensures p in FileHits(dirpath, DropLast(files), suffixes) || p in Hits(dirpath, files[|files| - 1], suffixes)
  {
    var k :| FileListedAt(dirpath, files, suffixes, p, k);
    if k < |files| - 1 {
      assert FileListedAt(dirpath, DropLast(files), suffixes, p, k);
    }
  }

  /** A path is listed exactly when it is the join of some walk entry's directory
      with one of that entry's FILE names ending with a requested suffix; every
      listed path therefore ends with a requested suffix. */
  lemma {:induction false} ListedIff(entries: seq<WalkEntry>, suffixes: seq<string>, p: string)
    ensures p in EntriesFiles(entries, suffixes) <==> exists e, k :: ListedAt(entries, suffixes, p, e, k)
    decreases |entries|
  {
    if |entries| > 0 {
      var init := DropLast(entries);
      var last := Last(entries);
      ListedIff(init, suffixes, p);
      FileHitsMembers(last.dirpath, last.filenames, suffixes, p);
      EntriesFilesStep(entries, suffixes, p);
      if p in EntriesFiles(entries, suffixes) {
        ListedGrows(entries, suffixes, p);
      }
      if exists e, k :: ListedAt(entries, suffixes, p, e, k) {
        ListedShrinks(entries, suffixes, p);
      }
    }
  }

  lemma EntriesFilesStep(entries: seq<WalkEntry>, suffixes: seq<string>, p: string)
    requires |entries| > 0
    ensures p in EntriesFiles(entries, suffixes) <==>
            p in EntriesFiles(DropLast(entries), suffixes) ||
            p in FileHits(Last(entries).dirpath, Last(entries).filenames, suffixes)
  {
  }

  lemma ListedGrows(entries: seq<WalkEntry>, suffixes: seq<string>, p: string)
    requires |entries| > 0
    requires p in EntriesFiles(DropLast(entries), suffixes) <==>
             exists e, k :: ListedAt(DropLast(entries), suffixes, p, e, k)
    requires p in FileHits(Last(entries).dirpath, Last(entries).filenames, suffixes) <==>
             exists k :: FileListedAt(Last(entries).dirpath, Last(entries).filenames, suffixes, p, k)
    requires p in EntriesFiles(DropLast(entries), suffixes) ||
             p in FileHits(Last(entries).dirpath, Last(entries).filenames, suffixes)
    ensures exists e, k :: ListedAt(entries, suffixes, p, e, k)
  {
    var last := Last(entries);
    if p in EntriesFiles(DropLast(entries), suffixes) {
      var e, k :| ListedAt(DropLast(entries), suffixes, p, e, k);
      assert DropLast(entries)[e] == entries[e];
      assert ListedAt(entries, suffixes, p, e, k);
    } else {
      var k :| FileListedAt(last.dirpath, last.filenames, suffixes, p, k);
      assert ListedAt(entries, suffixes, p, |entries| - 1, k);
    }
  }

  lemma ListedShrinks(entries: seq<WalkEntry>, suffixes: seq<string>, p: string)
    requires |entries| > 0
    requires p in EntriesFiles(DropLast(entries), suffixes) <==>
             exists e, k :: ListedAt(DropLast(entries), suffixes, p, e, k)
    requires p in FileHits(Last(entries).dirpath, Last(entries).filenames, suffixes) <==>
             exists k :: FileListedAt(Last(entries).dirpath, Last(entries).filenames, suffixes, p, k)
    requires exists e, k :: ListedAt(entries, suffixes, p, e, k)
    ensures p in EntriesFiles(DropLast(entries), suffixes) ||
            p in FileHits(Last(entries).dirpath, Last(entries).filenames, suffixes)
  {
    var e, k :| ListedAt(entries, suffixes, p, e, k);
    if e < |entries| - 1 {
      assert DropLast(entries)[e] == entries[e];
      assert ListedAt(DropLast(entries), suffixes, p, e, k);
    } else {
      assert FileListedAt(Last(entries).dirpath, Last(entries).filenames, suffixes, p, k);
    }
  }

  /** Every listed path ends with one of the requested suffixes. */
  lemma ListedEndsWithSuffix(entries: seq<WalkEntry>, suffixes: seq<string>, p: string)
    requires p in EntriesFiles(entries, suffixes)
    ensures EndsWithAny(p, suffixes)
  {
    ListedIff(entries, suffixes, p);
    var e, k :| ListedAt(entries, suffixes, p, e, k);
    var f := entries[e].filenames[k];
    var i :| 0 <= i < |suffixes| && EndsWith(f, suffixes[i]);
    EndsWithTrans(p, f, suffixes[i]);
  }

  /** A name whose last character differs from the suffix's does not end with it. */
  lemma LastCharMismatch(f: string, p: string)
    requires 0 < |p| <= |f| && f[|f| - 1] != p[|p| - 1]
    ensures !EndsWith(f, p)
  {
    assert f[|f| - |p|..][|p| - 1] == f[|f| - 1];
  }

  /** The suffix test is case-sensitive: an image saved as ".png" is listed and the
      same image saved as ".PNG" is not, while ".JPG" is, because it is spelled out. */
  lemma ImageSuffixIsCaseSensitive()
    ensures EndsWithAny("a.png", ImageExtensions)
    ensures !EndsWithAny("a.PNG", ImageExtensions)
    ensures EndsWithAny("a.JPG", ImageExtensions)
  {
    assert EndsWith("a.png", ImageExtensions[0]);
    assert EndsWith("a.JPG", ImageExtensions[10]);
    forall i | 0 <= i < |ImageExtensions|
      ensures !EndsWith("a.PNG", ImageExtensions[i])
    {
      if i < 9 {
        LastCharMismatch("a.PNG", ImageExtensions[i]);
      } else {
        assert "a.PNG"[3] == 'N';
      }
    }
  }

  /** A directory found by `get_geodbs_to_list`: the walk entry's directory and the
      matching directory name. */
  datatype Found = Found(dirpath: string, name: string)

  /** The directories of one entry whose name ends with `suffix`. */
  function FoundIn(dirpath: string, dirnames: seq<string>, suffix: string): (r: seq<Found>)
    ensures forall k :: 0 <= k < |r| ==> r[k].dirpath == dirpath && r[k].name in dirnames && EndsWith(r[k].name, suffix)
    decreases |dirnames|
  {
    if |dirnames| == 0 then []
    else
      var r := FoundIn(dirpath, DropLast(dirnames), suffix);
      assert forall x :: x in DropLast(dirnames) ==> x in dirnames;
      r + (if EndsWith(Last(dirnames), suffix) then [Found(dirpath, Last(dirnames))] else [])
  }

  /** The directories of all entries whose name ends with `suffix`, in walk order:
      each one is a directory (never a file) listed by its entry. */
  function FoundDirs(entries: seq<WalkEntry>, suffix: string): (r: seq<Found>)
    ensures forall k :: 0 <= k < |r| ==>
              (EndsWith(r[k].name, suffix) &&
               exists e :: 0 <= e < |entries| && entries[e].dirpath == r[k].dirpath && r[k].name in entries[e].dirnames)
    decreases |entries|
  {
    if |entries| == 0 then []
    else
      var init := FoundDirs(DropLast(entries), suffix);
      var last := FoundIn(Last(entries).dirpath, Last(entries).dirnames, suffix);
      assert forall e :: 0 <= e < |entries| - 1 ==> DropLast(entries)[e] == entries[e];
      assert forall k :: 0 <= k < |last| ==> entries[|entries| - 1].dirpath == last[k].dirpath;
      init + last
  }

  /** A directory is found in one entry exactly when the entry lists it and its
      name ends with the suffix. */
  lemma {:induction false} FoundInIff(dirpath: string, dirnames: seq<string>, suffix: string, f: Found)
    ensures f in FoundIn(dirpath, dirnames, suffix) <==>
              f.dirpath == dirpath && f.name in dirnames && EndsWith(f.name, suffix)
    decreases |dirnames|
  {
    if |dirnames| > 0 {
      FoundInIff(dirpath, DropLast(dirnames), suffix, f);
      assert dirnames == DropLast(dirnames) + [Last(dirnames)];
    }
  }

  /** A directory is found exactly when some walk entry lists it under its own
      directory and its name ends with the suffix. */
  lemma {:induction false} FoundDirsIff(entries: seq<WalkEntry>, suffix: string, f: Found)
    ensures f in FoundDirs(entries, suffix) <==>
              EndsWith(f.name, suffix) &&
              exists e :: 0 <= e < |entries| && entries[e].dirpath == f.dirpath && f.name in entries[e].dirnames
    decreases |entries|
  {
    if |entries| > 0 {
      var init := DropLast(entries);
      var last := Last(entries);
      FoundDirsIff(init, suffix, f);
      FoundInIff(last.dirpath, last.dirnames, suffix, f);
      if f in FoundIn(last.dirpath, last.dirnames, suffix) {
        assert entries[|entries| - 1] == last;
      }
      if exists e :: 0 <= e < |entries| && entries[e].dirpath == f.dirpath && f.name in entries[e].dirnames {
        var e :| 0 <= e < |entries| && entries[e].dirpath == f.dirpath && f.name in entries[e].dirnames;
        if e < |entries| - 1 {
          assert init[e] == entries[e];
        }
      }
      if exists e :: 0 <= e < |init| && init[e].dirpath == f.dirpath && f.name in init[e].dirnames {
        var e :| 0 <= e < |init| && init[e].dirpath == f.dirpath && f.name in init[e].dirnames;
        assert entries[e] == init[e];
      }
    }
  }

  /** The containers are found in walk order: those of earlier entries first. */
  lemma {:induction false} FoundDirsAppend(a: seq<WalkEntry>, b: seq<WalkEntry>, suffix: string)
    ensures FoundDirs(a + b, suffix) == FoundDirs(a, suffix) + FoundDirs(b, suffix)
    decreases |b|
  {
    if |b| > 0 {
      assert DropLast(a + b) == a + DropLast(b);
      assert Last(a + b) == Last(b);
      FoundDirsAppend(a, DropLast(b), suffix);
    } else {
      assert a + b == a;
    }
  }

  /** The names of the found directories, failing at the first one whose normalised
      path has a single segment. */
  function NamesOf(paths: seq<string>): (r: Result<seq<string>>)
    ensures r.Ok? ==> |r.value| == |paths| && forall k :: 0 <= k < |paths| ==> ParentSegment(paths[k]) == Ok(r.value[k])
    ensures r.Err? ==> r.exc == IndexOutOfRange && exists k :: 0 <= k < |paths| && ParentSegment(paths[k]).Err?
  {
    AllOk(seq(|paths|, k requires 0 <= k < |paths| => ParentSegment(paths[k])))
  }

  /** The joined path of each found directory. */
  function FoundPaths(found: seq<Found>): (r: seq<string>)
    ensures |r| == |found|
    ensures forall k :: 0 <= k < |found| ==> r[k] == PathJoin(found[k].dirpath, found[k].name)
  {
    seq(|found|, k requires 0 <= k < |found| => PathJoin(found[k].dirpath, found[k].name))
  }

  /** `get_geodbs_to_list(root_dirs, files_endwith)`: the names and paths of the
      directories whose name ends with the suffix, in walk order; the IndexError
      that `parts[-2]` raises aborts the whole discovery. */
  function GetGeodbsToList(walks: seq<Walk>, suffix: string): (r: Result<(seq<string>, seq<string>)>)
    ensures r.Ok? ==> |r.value.0| == |r.value.1| == |FoundDirs(AllEntries(walks), suffix)|
    ensures r.Ok? ==> r.value.1 == FoundPaths(FoundDirs(AllEntries(walks), suffix))
    ensures r.Ok? ==> forall k :: 0 <= k < |r.value.1| ==> ParentSegment(r.value.1[k]) == Ok(r.value.0[k])
    ensures r.Err? ==> r.exc == IndexOutOfRange
  {
    var paths := FoundPaths(FoundDirs(AllEntries(walks), suffix));
    match NamesOf(paths)
    case Ok(names) => Ok((names, paths))
    case Err(e) => Err(e)
  }

  /** Every directory name a well-formed walk lists is plain, so every found name is. */
  lemma FoundNamesPlain(entries: seq<WalkEntry>, suffix: string, k: int)
    requires WellFormedWalk(entries)
    requires 0 <= k < |FoundDirs(entries, suffix)|
    ensures PlainName(FoundDirs(entries, suffix)[k].name)
  {
    var found := FoundDirs(entries, suffix);
    var e :| 0 <= e < |entries| && entries[e].dirpath == found[k].dirpath && found[k].name in entries[e].dirnames;
    var j :| 0 <= j < |entries[e].dirnames| && entries[e].dirnames[j] == found[k].name;
  }

  /** The name recorded for one found container. */
  lemma FoundParent(found: seq<Found>, k: int)
    requires 0 <= k < |found| && PlainName(found[k].name)
    ensures ParentSegment(FoundPaths(found)[k]) ==
            if NormPath(found[k].dirpath) == "." then Err(IndexOutOfRange)
            else Ok(Last(Split(NormPath(found[k].dirpath), Sep)))
  {
    ContainerNameIsParent(found[k].dirpath, found[k].name);
  }

  /** Naming the paths succeeds exactly when every path has a parent segment. */
  lemma NamesOfOk(paths: seq<string>)
    ensures NamesOf(paths).Ok? <==> forall k :: 0 <= k < |paths| ==> ParentSegment(paths[k]).Ok?
  {
  }

  /** Each container is named after the directory holding it: the last segment of
      its normalised walk directory.  Discovery fails exactly when some container's
      walk directory normalises to "." (a walk of the current directory, say). */
  lemma GeodbNamesAreParents(walks: seq<Walk>, suffix: string)
    requires WellFormedWalk(AllEntries(walks))
    ensures var found := FoundDirs(AllEntries(walks), suffix);
            var r := GetGeodbsToList(walks, suffix);
            (r.Ok? <==> forall k :: 0 <= k < |found| ==> NormPath(found[k].dirpath) != ".") &&
            (r.Ok? ==> forall k :: 0 <= k < |found| ==>
                         r.value.0[k] == Last(Split(NormPath(found[k].dirpath), Sep)))
  {
    var entries := AllEntries(walks);
    var found := FoundDirs(entries, suffix);
    var paths := FoundPaths(found);
    forall k | 0 <= k < |found|
      ensures ParentSegment(paths[k]) ==
              if NormPath(found[k].dirpath) == "." then Err(IndexOutOfRange)
              else Ok(Last(Split(NormPath(found[k].dirpath), Sep)))
    {
      FoundNamesPlain(entries, suffix, k);
      FoundParent(found, k);
    }
    NamesOfOk(paths);
  }
}
