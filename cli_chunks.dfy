/**
 * The records of cli.py and the grouping of image paths into one chunk per
 * directory (`split_imgs_per_dir`), together with the in-place sort of a
 * chunk's file results by file name.
 */
module CliChunks {
  import opened Strings
  import opened PosixPath

  /** `FileResult`: one image of a directory and whether it resembles its predecessor. */
  class FileResult {
    const filename: string
    var isSimilarToPrev: bool

    constructor (filename: string)
      ensures this.filename == filename && !isSimilarToPrev
    {
      this.filename := filename;
      isSimilarToPrev := false;
    }
  }

  /** `DirChunk`: a directory and the file results of its images. */
  class DirChunk {
    const dirname: string
    var fileresults: seq<FileResult>

    constructor (dirname: string)
      ensures this.dirname == dirname && fileresults == []
    {
      this.dirname := dirname;
      fileresults := [];
    }

    /** `fileresults.append(f)`. */
    method Append(f: FileResult)
      modifies this
      ensures fileresults == old(fileresults) + [f]
    {
      fileresults := fileresults + [f];
    }

    /** `fileresults.sort(key=lambda x: x.filename)`. */
    method SortByFilename()
      modifies this
      ensures fileresults == SortedByFilename(old(fileresults))
    {
      fileresults := SortedByFilename(fileresults);
    }
  }

  function Filenames(fs: seq<FileResult>): (names: seq<string>)
    ensures |names| == |fs| && forall i :: 0 <= i < |fs| ==> names[i] == fs[i].filename
  {
    seq(|fs|, i requires 0 <= i < |fs| => fs[i].filename)
  }

  predicate Distinct<T(==)>(s: seq<T>) {
    forall i, j :: 0 <= i < j < |s| ==> s[i] != s[j]
  }

  /** Lists that share no element, and none of which holds an element twice. */
  predicate SeparateLists(lists: seq<seq<FileResult>>) {
    (forall i :: 0 <= i < |lists| ==> Distinct(lists[i])) &&
    (forall i, j, f :: 0 <= i < j < |lists| && f in lists[i] ==> f !in lists[j])
  }

  ghost function Lists(chunks: seq<DirChunk>): (lists: seq<seq<FileResult>>)
    reads chunks
    ensures |lists| == |chunks| && forall c :: 0 <= c < |chunks| ==> lists[c] == chunks[c].fileresults
  {
    seq(|chunks|, c requires 0 <= c < |chunks| reads chunks => chunks[c].fileresults)
  }

  /** Chunks that share no object: each file result belongs to one place of one chunk. */
  ghost predicate Separate(chunks: seq<DirChunk>)
    reads chunks
  {
    Distinct(chunks) && SeparateLists(Lists(chunks))
  }

  /** Every file result held by some chunk. */
  ghost function Images(chunks: seq<DirChunk>): set<FileResult>
    reads chunks
  {
    set c, f | c in chunks && f in c.fileresults :: f
  }

  // ---------------------------------------------------------------------
  // Sorting file results by file name (Python's stable `list.sort`)
  // ---------------------------------------------------------------------

  /** Insert `f` before the first element whose file name is not smaller. */
  function InsertByFilename(f: FileResult, s: seq<FileResult>): seq<FileResult> {
    if s == [] || LessEq(f.filename, s[0].filename) then [f] + s
    else [s[0]] + InsertByFilename(f, s[1..])
  }

  /** The result of `list.sort(key=lambda x: x.filename)`. */
  function SortedByFilename(s: seq<FileResult>): seq<FileResult> {
    if s == [] then [] else InsertByFilename(s[0], SortedByFilename(s[1..]))
  }

  predicate OrderedByFilename(s: seq<FileResult>) {
    forall k :: 0 < k < |s| ==> LessEq(s[k - 1].filename, s[k].filename)
  }

  /** The elements of `s` called `name`, in their order in `s`. */
  function Named(s: seq<FileResult>, name: string): seq<FileResult> {
    if s == [] then []
    else (if s[0].filename == name then [s[0]] else []) + Named(s[1..], name)
  }

  lemma {:induction false} InsertOrdered(f: FileResult, s: seq<FileResult>)
    requires OrderedByFilename(s)
    ensures OrderedByFilename(InsertByFilename(f, s))
    ensures InsertByFilename(f, s)[0] == f || (s != [] && InsertByFilename(f, s)[0] == s[0])
    decreases |s|
  {
    if s != [] && !LessEq(f.filename, s[0].filename) {
      InsertOrdered(f, s[1..]);
      LessEqTotal(f.filename, s[0].filename);
    }
  }

  /** The sorted list is in file-name order. */
  lemma {:induction false} SortedIsOrdered(s: seq<FileResult>)
    ensures OrderedByFilename(SortedByFilename(s))
    decreases |s|
  {
    if s != [] {
      SortedIsOrdered(s[1..]);
      InsertOrdered(s[0], SortedByFilename(s[1..]));
    }
  }

  lemma FilenamesCons(f: FileResult, s: seq<FileResult>)
    ensures Filenames([f] + s) == [f.filename] + Filenames(s)
  {
  }

  lemma {:induction false} InsertPermutes(f: FileResult, s: seq<FileResult>)
    ensures multiset(InsertByFilename(f, s)) == multiset(s) + multiset{f}
    decreases |s|
  {
    if s != [] && !LessEq(f.filename, s[0].filename) {
      InsertPermutes(f, s[1..]);
      assert s == [s[0]] + s[1..];
    }
  }

  lemma {:induction false} InsertPermutesNames(f: FileResult, s: seq<FileResult>)
    ensures multiset(Filenames(InsertByFilename(f, s))) == multiset(Filenames(s)) + multiset{f.filename}
    decreases |s|
  {
    if s != [] && !LessEq(f.filename, s[0].filename) {
      InsertPermutesNames(f, s[1..]);
      assert s == [s[0]] + s[1..];
      FilenamesCons(s[0], s[1..]);
      FilenamesCons(s[0], InsertByFilename(f, s[1..]));
    } else {
      FilenamesCons(f, s);
    }
  }

  /** The sorted list holds the same file results, and so the same file names, as many times each. */
  lemma {:induction false} SortedPermutes(s: seq<FileResult>)
    ensures multiset(SortedByFilename(s)) == multiset(s)
    ensures multiset(Filenames(SortedByFilename(s))) == multiset(Filenames(s))
    decreases |s|
  {
    if s != [] {
      SortedPermutes(s[1..]);
      InsertPermutes(s[0], SortedByFilename(s[1..]));
      InsertPermutesNames(s[0], SortedByFilename(s[1..]));
      assert s == [s[0]] + s[1..];
      FilenamesCons(s[0], s[1..]);
    }
  }

  lemma {:induction false} NamedInsert(f: FileResult, s: seq<FileResult>, name: string)
    ensures Named(InsertByFilename(f, s), name) ==
      if f.filename == name then [f] + Named(s, name) else Named(s, name)
    decreases |s|
  {
    if s != [] && !LessEq(f.filename, s[0].filename) {
      NamedInsert(f, s[1..], name);
      if s[0].filename == f.filename { LessEqReflexive(f.filename); }
    }
  }

  /** The sort is stable: file results with equal names keep their relative order. */
  lemma {:induction false} SortedIsStable(s: seq<FileResult>, name: string)
    ensures Named(SortedByFilename(s), name) == Named(s, name)
    decreases |s|
  {
    if s != [] {
      SortedIsStable(s[1..], name);
      NamedInsert(s[0], SortedByFilename(s[1..]), name);
    }
  }

  /** A permutation of a list without repetitions has none either. */
  lemma DistinctPermutation<T>(s: seq<T>, t: seq<T>)
    requires multiset(s) == multiset(t) && Distinct(s)
    ensures Distinct(t)
  {
    forall i, j | 0 <= i < j < |t| ensures t[i] != t[j] {
      if t[i] == t[j] {
        assert t == t[..j] + [t[j]] + t[j + 1..];
        assert t[i] in t[..j];
        assert multiset(t)[t[i]] >= 2;
        DistinctAtMostOnce(s, t[i]);
        assert false;
      }
    }
  }

  lemma {:induction false} DistinctAtMostOnce<T>(s: seq<T>, x: T)
    requires Distinct(s)
    ensures multiset(s)[x] <= 1
    decreases |s|
  {
    if s != [] {
      assert s == [s[0]] + s[1..];
      DistinctAtMostOnce(s[1..], x);
      if s[0] == x {
        assert x !in s[1..];
      }
    }
  }

  // ---------------------------------------------------------------------
  // The grouping, as a function of the list of paths
  // ---------------------------------------------------------------------

  /** The directories of `paths`, each once, in order of first appearance. */
  function DistinctDirs(paths: seq<string>): seq<string>
    decreases |paths|
  {
    if paths == [] then []
    else
      var ds := DistinctDirs(paths[..|paths| - 1]);
      var d := Dirname(paths[|paths| - 1]);
      if d in ds then ds else ds + [d]
  }

  /** The base names of the paths in directory `d`, in input order. */
  function FilesIn(paths: seq<string>, d: string): seq<string>
    decreases |paths|
  {
    if paths == [] then []
    else
      var p := paths[|paths| - 1];
      FilesIn(paths[..|paths| - 1], d) + (if Dirname(p) == d then [Basename(p)] else [])
  }

  lemma DistinctDirsSnoc(paths: seq<string>, p: string)
    ensures DistinctDirs(paths + [p]) ==
      if Dirname(p) in DistinctDirs(paths) then DistinctDirs(paths) else DistinctDirs(paths) + [Dirname(p)]
  {
    assert (paths + [p])[..|paths|] == paths;
  }

  lemma FilesInSnoc(paths: seq<string>, p: string, d: string)
    ensures FilesIn(paths + [p], d) == FilesIn(paths, d) + (if Dirname(p) == d then [Basename(p)] else [])
  {
    assert (paths + [p])[..|paths|] == paths;
  }

  /** A directory with at least one file is among the distinct directories. */
  lemma {:induction false} FilesInDirs(paths: seq<string>, d: string)
    requires FilesIn(paths, d) != []
    ensures d in DistinctDirs(paths)
    decreases |paths|
  {
    var init := paths[..|paths| - 1];
    var p := paths[|paths| - 1];
    if Dirname(p) != d {
      FilesInDirs(init, d);
    }
  }

  lemma {:induction false} DistinctDirsDistinct(paths: seq<string>)
    ensures Distinct(DistinctDirs(paths))
    decreases |paths|
  {
    if paths != [] {
      var init := paths[..|paths| - 1];
      assert init + [paths[|paths| - 1]] == paths;
      DistinctDirsDistinct(init);
      DistinctDirsSnoc(init, paths[|paths| - 1]);
    }
  }

  /** The directories of `paths`, as a set. */
  function Dirs(paths: seq<string>): (ds: set<string>)
    ensures forall k :: 0 <= k < |paths| ==> Dirname(paths[k]) in ds
  {
    set p | p in paths :: Dirname(p)
  }

  /** A directory is listed exactly when some path lies in it. */
  lemma {:induction false} DistinctDirsCover(paths: seq<string>)
    ensures forall d :: d in DistinctDirs(paths) <==> d in Dirs(paths)
    decreases |paths|
  {
    if paths != [] {
      var init := paths[..|paths| - 1];
      var p := paths[|paths| - 1];
      assert paths == init + [p];
      DistinctDirsCover(init);
      DistinctDirsSnoc(init, p);
      assert Dirs(paths) == Dirs(init) + {Dirname(p)};
    }
  }

  /** There are as many chunks as there are different directories. */
  lemma ChunkCount(paths: seq<string>)
    ensures |DistinctDirs(paths)| == |Dirs(paths)|
  {
    DistinctDirsCover(paths);
    DistinctDirsDistinct(paths);
    var ds := DistinctDirs(paths);
    assert (set i | 0 <= i < |ds| :: ds[i]) == Dirs(paths);
    DistinctCard(ds);
  }

  lemma {:induction false} DistinctCard<T>(s: seq<T>)
    requires Distinct(s)
    ensures |set i | 0 <= i < |s| :: s[i]| == |s|
    decreases |s|
  {
    if s != [] {
      var init := s[..|s| - 1];
      DistinctCard(init);
      assert (set i | 0 <= i < |s| :: s[i]) == (set i | 0 <= i < |init| :: init[i]) + {s[|s| - 1]};
      assert s[|s| - 1] !in (set i | 0 <= i < |init| :: init[i]);
    }
  }

  /** Every listed directory has at least one file, so no chunk is empty. */
  lemma {:induction false} FilesInNonEmpty(paths: seq<string>, d: string)
    requires d in DistinctDirs(paths)
    ensures FilesIn(paths, d) != []
    decreases |paths|
  {
    var init := paths[..|paths| - 1];
    var p := paths[|paths| - 1];
    assert paths == init + [p];
    DistinctDirsSnoc(init, p);
    FilesInSnoc(init, p, d);
    if Dirname(p) != d {
      FilesInNonEmpty(init, d);
    }
  }

  /** Every path's base name is among the files of its directory. */
  lemma {:induction false} PathInChunk(paths: seq<string>, k: nat)
    requires k < |paths|
    ensures Basename(paths[k]) in FilesIn(paths, Dirname(paths[k]))
    decreases |paths|
  {
    var init := paths[..|paths| - 1];
    var p := paths[|paths| - 1];
    assert paths == init + [p];
    FilesInSnoc(init, p, Dirname(paths[k]));
    if k < |init| {
      PathInChunk(init, k);
    }
  }

  /** Splitting the input splits every directory's file list the same way: input order is kept. */
  lemma {:induction false} FilesInAppend(a: seq<string>, b: seq<string>, d: string)
    ensures FilesIn(a + b, d) == FilesIn(a, d) + FilesIn(b, d)
    decreases |b|
  {
    if b != [] {
      var init := b[..|b| - 1];
      var p := b[|b| - 1];
      assert b == init + [p];
      assert a + b == (a + init) + [p];
      FilesInAppend(a, init, d);
      FilesInSnoc(a + init, p, d);
      FilesInSnoc(init, p, d);
    } else {
      assert a + b == a;
    }
  }

  /** The total number of files in the chunks for directories `ds`. */
  function SizeSum(ds: seq<string>, paths: seq<string>): nat
    decreases |ds|
  {
    if ds == [] then 0
    else SizeSum(ds[..|ds| - 1], paths) + |FilesIn(paths, ds[|ds| - 1])|
  }

  lemma {:induction false} SizeSumSnoc(ds: seq<string>, paths: seq<string>, p: string)
    ensures SizeSum(ds, paths + [p]) == SizeSum(ds, paths) + multiset(ds)[Dirname(p)]
    decreases |ds|
  {
    if ds != [] {
      var init := ds[..|ds| - 1];
      assert ds == init + [ds[|ds| - 1]];
      SizeSumSnoc(init, paths, p);
      FilesInSnoc(paths, p, ds[|ds| - 1]);
    }
  }

  /** Every path lands in exactly one chunk: the chunk sizes add up to the number of paths. */
  lemma {:induction false} ChunksCoverPaths(paths: seq<string>)
    ensures SizeSum(DistinctDirs(paths), paths) == |paths|
    decreases |paths|
  {
    if paths != [] {
      var init := paths[..|paths| - 1];
      var p := paths[|paths| - 1];
      var x := Dirname(p);
      assert paths == init + [p];
      ChunksCoverPaths(init);
      DistinctDirsSnoc(init, p);
      DistinctDirsDistinct(paths);
      DistinctAtMostOnce(DistinctDirs(paths), x);
      SizeSumSnoc(DistinctDirs(paths), init, p);
      if x !in DistinctDirs(init) {
        var ds := DistinctDirs(init);
        assert (ds + [x])[..|ds|] == ds;
        if FilesIn(init, x) != [] { FilesInDirs(init, x); }
      }
    }
  }

  /** Some path in directory `a` comes before every path in directory `b`. */
  ghost predicate AppearsBefore(paths: seq<string>, a: string, b: string) {
    exists k :: 0 <= k < |paths| && Dirname(paths[k]) == a &&
      forall m :: 0 <= m <= k ==> Dirname(paths[m]) != b
  }

  /** Chunks come in order of their directories' first appearance. */
  lemma {:induction false} FirstAppearanceOrder(paths: seq<string>, i: nat, j: nat)
    requires i < j < |DistinctDirs(paths)|
    ensures AppearsBefore(paths, DistinctDirs(paths)[i], DistinctDirs(paths)[j])
    decreases |paths|
  {
    var init := paths[..|paths| - 1];
    var p := paths[|paths| - 1];
    var ds := DistinctDirs(init);
    assert paths == init + [p];
    DistinctDirsSnoc(init, p);
    assert DistinctDirs(paths)[..|ds|] == ds;
    var a := DistinctDirs(paths)[i];
    var b := DistinctDirs(paths)[j];
    if j < |ds| {
      FirstAppearanceOrder(init, i, j);
      var k :| 0 <= k < |init| && Dirname(init[k]) == a &&
        forall m :: 0 <= m <= k ==> Dirname(init[m]) != b;
      assert forall m :: 0 <= m <= k ==> paths[m] == init[m];
    } else {
      assert b == Dirname(p) && b !in ds;
      DistinctDirsCover(init);
      assert a in ds;
      var k :| 0 <= k < |init| && Dirname(init[k]) == a by {
        var q :| q in init && Dirname(q) == a;
        var k :| 0 <= k < |init| && init[k] == q;
      }
      forall m | 0 <= m <= k ensures Dirname(paths[m]) != b {
        assert paths[m] == init[m];
        assert Dirname(init[m]) in Dirs(init);
      }
    }
  }

  /** The file-result lists collected per directory hold the file names of `FilesIn`. */
  ghost predicate Grouped(paths: seq<string>, lists: map<string, seq<FileResult>>) {
    forall x :: x in lists ==> Filenames(lists[x]) == FilesIn(paths, x)
  }

  lemma GroupedNew(paths: seq<string>, lists: map<string, seq<FileResult>>, d: string)
    requires Grouped(paths, lists) && d !in DistinctDirs(paths)
    ensures Grouped(paths, lists[d := []])
  {
    if FilesIn(paths, d) != [] { FilesInDirs(paths, d); }
  }

  lemma GroupedSnoc(paths: seq<string>, p: string, lists: map<string, seq<FileResult>>, fr: FileResult)
    requires Grouped(paths, lists) && Dirname(p) in lists && fr.filename == Basename(p)
    ensures Grouped(paths + [p], lists[Dirname(p) := lists[Dirname(p)] + [fr]])
  {
    var lists' := lists[Dirname(p) := lists[Dirname(p)] + [fr]];
    forall x | x in lists' ensures Filenames(lists'[x]) == FilesIn(paths + [p], x) {
      FilesInSnoc(paths, p, x);
      if x == Dirname(p) {
        assert Filenames(lists[x] + [fr]) == Filenames(lists[x]) + [fr.filename];
      }
    }
  }

  /** What the dictionary's invariant says of its values, listed in key order. */
  lemma ChunksOfDict(chunks: seq<DirChunk>, order: seq<string>, d: map<string, DirChunk>,
                     lists: map<string, seq<FileResult>>, made: set<FileResult>)
    requires Distinct(order) && |chunks| == |order|
    requires forall i :: 0 <= i < |order| ==> order[i] in d && chunks[i] == d[order[i]]
    requires forall x :: x in d ==> x in lists && d[x].dirname == x && d[x].fileresults == lists[x]
    requires forall x :: x in lists ==> Distinct(lists[x])
    requires forall x, y, f :: x in lists && y in lists && x != y && f in lists[x] ==> f !in lists[y]
    requires forall x, f :: x in lists && f in lists[x] ==> f in made
    ensures Separate(chunks) && Images(chunks) <= made
  {
    forall f | f in Images(chunks) ensures f in made {
      var c :| c in chunks && f in c.fileresults;
    }
    assert Distinct(chunks) by {
      forall i, j | 0 <= i < j < |chunks| ensures chunks[i] != chunks[j] {
        assert chunks[i].dirname == order[i];
      }
    }
  }

  /**
   * What holds of the directory order and the file-result lists after the
   * first `paths`: `order` lists the directories, `lists[x]` holds the
   * file results of directory `x` in path order, the lists share nothing,
   * and every file result in them is among `made`.
   */
  ghost predicate Collected(paths: seq<string>, order: seq<string>,
                            lists: map<string, seq<FileResult>>, made: set<FileResult>)
  {
    order == DistinctDirs(paths) &&
    (forall x :: x in lists <==> x in order) &&
    Grouped(paths, lists) &&
    Apart(lists) &&
    (forall x, f :: x in lists && f in lists[x] ==> f in made)
  }

  /** No list holds an element twice and no two lists share one. */
  ghost predicate Apart(lists: map<string, seq<FileResult>>) {
    (forall x :: x in lists ==> Distinct(lists[x])) &&
    (forall x, y, f :: x in lists && y in lists && x != y && f in lists[x] ==> f !in lists[y])
  }

  lemma ApartCollect(lists: map<string, seq<FileResult>>, p: string, fr: FileResult)
    requires Apart(lists) && forall x :: x in lists ==> fr !in lists[x]
    ensures Apart(Collect(lists, p, fr))
  {
    var lists' := Collect(lists, p, fr);
    forall x, y, f | x in lists' && y in lists' && x != y && f in lists'[x] ensures f !in lists'[y] {
      if f == fr {
        assert x == Dirname(p);
      } else {
        assert f in lists[x];
      }
    }
  }

  /** The lists after one more path, whose file result `fr` is new. */
  function Collect(lists: map<string, seq<FileResult>>, p: string, fr: FileResult): map<string, seq<FileResult>> {
    var x := Dirname(p);
    var sofar := if x in lists then lists[x] else [];
    lists[x := sofar + [fr]]
  }

  lemma CollectedSnoc(paths: seq<string>, p: string, order: seq<string>,
                      lists: map<string, seq<FileResult>>, made: set<FileResult>, fr: FileResult)
    requires Collected(paths, order, lists, made) && fr !in made && fr.filename == Basename(p)
    ensures Collected(paths + [p], if Dirname(p) in lists then order else order + [Dirname(p)],
                      Collect(lists, p, fr), made + {fr})
  {
    DistinctDirsSnoc(paths, p);
    GroupedCollect(paths, p, lists, fr);
    ApartCollect(lists, p, fr);
    MadeCollect(lists, p, fr, made);
    KeysCollect(order, lists, p, fr);
  }

  lemma GroupedCollect(paths: seq<string>, p: string, lists: map<string, seq<FileResult>>, fr: FileResult)
    requires Grouped(paths, lists) && fr.filename == Basename(p)
    requires forall x :: x in lists <==> x in DistinctDirs(paths)
    ensures Grouped(paths + [p], Collect(lists, p, fr))
  {
    var x := Dirname(p);
    var lists0 := if x in lists then lists else lists[x := []];
    if x !in lists { GroupedNew(paths, lists, x); }
    GroupedSnoc(paths, p, lists0, fr);
    assert Collect(lists, p, fr) == lists0[x := lists0[x] + [fr]];
  }

  lemma KeysCollect(order: seq<string>, lists: map<string, seq<FileResult>>, p: string, fr: FileResult)
    requires forall x :: x in lists <==> x in order
    ensures forall x :: x in Collect(lists, p, fr) <==>
      x in (if Dirname(p) in lists then order else order + [Dirname(p)])
  {
  }

  lemma MadeCollect(lists: map<string, seq<FileResult>>, p: string, fr: FileResult, made: set<FileResult>)
    requires forall x, f :: x in lists && f in lists[x] ==> f in made
    ensures forall x, f :: x in Collect(lists, p, fr) && f in Collect(lists, p, fr)[x] ==> f in made + {fr}
  {
  }

  /** The dictionary `d` holds, for each directory `x`, the chunk whose file results are `lists[x]`. */
  ghost predicate Holds(d: map<string, DirChunk>, lists: map<string, seq<FileResult>>, made: set<FileResult>)
    reads d.Values, made
  {
    (forall x :: x in d <==> x in lists) &&
    (forall x :: x in d ==> d[x].dirname == x && d[x].fileresults == lists[x]) &&
    (forall f :: f in made ==> !f.isSimilarToPrev)
  }

  /** One iteration of the loop of `split_imgs_per_dir`: file path `p` joins the chunk of its directory. */
  method AddPath(ghost paths: seq<string>, p: string, d: map<string, DirChunk>, order: seq<string>,
                 ghost lists: map<string, seq<FileResult>>, ghost made: set<FileResult>)
    returns (d': map<string, DirChunk>, order': seq<string>,
             ghost lists': map<string, seq<FileResult>>, ghost made': set<FileResult>)
    requires Collected(paths, order, lists, made) && Holds(d, lists, made)
    modifies if Dirname(p) in d then {d[Dirname(p)]} else {}
    ensures Collected(paths + [p], order', lists', made')
    ensures Holds(d', lists', made')
    ensures forall x :: x in d' ==> (x in d && d'[x] == d[x]) || fresh(d'[x])
    ensures made <= made' && fresh(made' - made)
  {
    var dirname := Dirname(p);
    var basename := Basename(p);
    var chunk: DirChunk;
    order' := order;
    if dirname in d {
      chunk := d[dirname];
    } else {
      chunk := new DirChunk(dirname);
      order' := order + [dirname];
    }
    var fr := new FileResult(basename);
    assert order' == if dirname in lists then order else order + [dirname];
    CollectedSnoc(paths, p, order, lists, made, fr);
    made' := made + {fr};
    lists' := Collect(lists, p, fr);
    chunk.Append(fr);
    d' := d[dirname := chunk];
    forall x | x in d'
      ensures d'[x].dirname == x && d'[x].fileresults == lists'[x]
      ensures (x in d && d'[x] == d[x]) || fresh(d'[x])
    {
      if x != dirname {
        assert d[x] != chunk;
      }
    }
  }

  /** `split_imgs_per_dir`: one chunk per directory, in order of first appearance. */
  method SplitImgsPerDir(allImgPaths: seq<string>) returns (chunks: seq<DirChunk>)
    ensures |chunks| == |DistinctDirs(allImgPaths)|
    ensures forall c :: 0 <= c < |chunks| ==>
      chunks[c].dirname == DistinctDirs(allImgPaths)[c] &&
      Filenames(chunks[c].fileresults) == FilesIn(allImgPaths, chunks[c].dirname)
    ensures forall c, k :: 0 <= c < |chunks| && 0 <= k < |chunks[c].fileresults| ==>
      !chunks[c].fileresults[k].isSimilarToPrev
    ensures Separate(chunks)
    ensures forall c :: 0 <= c < |chunks| ==> fresh(chunks[c])
    ensures fresh(Images(chunks))
  {
    // The dictionary `d` keeps its keys in insertion order, as Python's
    // does: `order` lists them. `lists` records each chunk's file results.
    var d: map<string, DirChunk> := map[];
    var order: seq<string> := [];
    ghost var lists: map<string, seq<FileResult>> := map[];
    ghost var made: set<FileResult> := {};
    for n := 0 to |allImgPaths|
      invariant Collected(allImgPaths[..n], order, lists, made) && Holds(d, lists, made)
      invariant forall x :: x in d ==> fresh(d[x])
      invariant fresh(made)
    {
      assert allImgPaths[..n + 1] == allImgPaths[..n] + [allImgPaths[n]];
      d, order, lists, made := AddPath(allImgPaths[..n], allImgPaths[n], d, order, lists, made);
    }
    assert allImgPaths[..|allImgPaths|] == allImgPaths;
    chunks := seq(|order|, i requires 0 <= i < |order| => d[order[i]]);
    DistinctDirsDistinct(allImgPaths);
    ChunksOfDict(chunks, order, d, lists, made);
  }
}
