/**
 * The main loop of cli.py: every chunk is sorted by file name, then each of
 * its images is marked similar when the difference between its hash and the
 * hash of the image just before it, in the same chunk, is at most the
 * threshold. The image hash is a parameter `hash` and the difference of two
 * hashes (ImageHash's subtraction, a Hamming distance) a parameter `diff`.
 */
module CliClassify {
  import opened Options
  import opened PosixPath
  import opened CliChunks

  // ---------------------------------------------------------------------
  // Specification: the flags as a function of the hashes
  // ---------------------------------------------------------------------

  /**
   * The flags the loop assigns to images with hashes `hs`, when the hash
   * before the first of them is `prev` (`None` at the start of a chunk).
   */
  function PredecessorFlags<H>(prev: Option<H>, hs: seq<H>, diff: (H, H) -> nat, threshold: int): (flags: seq<bool>)
    ensures |flags| == |hs|
    decreases |hs|
  {
    if hs == [] then []
    else [prev.Some? && diff(prev.value, hs[0]) <= threshold] + PredecessorFlags(Some(hs[0]), hs[1..], diff, threshold)
  }

  /** Flag `k` compares hash `k` with the one just before it, or with `prev` for the first. */
  lemma {:induction false} PredecessorFlagsAt<H>(prev: Option<H>, hs: seq<H>, diff: (H, H) -> nat, threshold: int, k: nat)
    requires k < |hs|
    ensures PredecessorFlags(prev, hs, diff, threshold)[k] ==
      var before := if k == 0 then prev else Some(hs[k - 1]);
      before.Some? && diff(before.value, hs[k]) <= threshold
    decreases k
  {
    if k > 0 {
      PredecessorFlagsAt(Some(hs[0]), hs[1..], diff, threshold, k - 1);
    }
  }

  /** The hashes of the files `names` of directory `dirname`, in order. */
  function Hashes<H>(dirname: string, names: seq<string>, hash: string -> H): seq<H> {
    seq(|names|, i requires 0 <= i < |names| => hash(Join(dirname, names[i])))
  }

  /** The flags of a chunk: its hash history starts empty. */
  function ChunkFlags<H>(dirname: string, names: seq<string>, hash: string -> H,
                         diff: (H, H) -> nat, threshold: int): seq<bool>
  {
    PredecessorFlags(None, Hashes(dirname, names, hash), diff, threshold)
  }

  /**
   * The first image of a chunk is never similar; any other is similar
   * exactly when its hash differs from that of the image before it by at
   * most the threshold.
   */
  lemma ChunkFlagsAt<H>(dirname: string, names: seq<string>, hash: string -> H,
                        diff: (H, H) -> nat, threshold: int, k: nat)
    requires k < |names|
    ensures ChunkFlags(dirname, names, hash, diff, threshold)[k] <==>
      k > 0 && diff(hash(Join(dirname, names[k - 1])), hash(Join(dirname, names[k]))) <= threshold
  {
    PredecessorFlagsAt(None, Hashes(dirname, names, hash), diff, threshold, k);
  }

  /** A negative threshold marks no image at all, since differences are never negative. */
  lemma NegativeThresholdMarksNothing<H>(dirname: string, names: seq<string>, hash: string -> H,
                                         diff: (H, H) -> nat, threshold: int, k: nat)
    requires threshold < 0 && k < |names|
    ensures !ChunkFlags(dirname, names, hash, diff, threshold)[k]
  {
    ChunkFlagsAt(dirname, names, hash, diff, threshold, k);
  }

  /** The similarity flags of some file results. */
  function FlagsOf(fs: seq<FileResult>): (flags: seq<bool>)
    reads fs
    ensures |flags| == |fs| && forall k :: 0 <= k < |fs| ==> flags[k] == fs[k].isSimilarToPrev
  {
    seq(|fs|, k requires 0 <= k < |fs| reads fs => fs[k].isSimilarToPrev)
  }

  // ---------------------------------------------------------------------
  // The loops
  // ---------------------------------------------------------------------

  /**
   * The inner loop: hash each image of the chunk in order, compare it with
   * the previous hash and remember it. Returns the last hash seen.
   */
  method ClassifyFiles<H>(chunk: DirChunk, ghost owned: seq<FileResult>, prev0: Option<H>, hash: string -> H,
                          diff: (H, H) -> nat, threshold: int) returns (prev: Option<H>)
    requires Distinct(chunk.fileresults) && forall f :: f in chunk.fileresults ==> f in owned
    modifies owned
    ensures FlagsOf(chunk.fileresults) ==
      PredecessorFlags(prev0, Hashes(chunk.dirname, Filenames(chunk.fileresults), hash), diff, threshold)
    ensures prev == if chunk.fileresults == [] then prev0
                    else Some(hash(Join(chunk.dirname, chunk.fileresults[|chunk.fileresults| - 1].filename)))
  {
    var fs := chunk.fileresults;
    ghost var hs := Hashes(chunk.dirname, Filenames(fs), hash);
    ghost var flags := PredecessorFlags(prev0, hs, diff, threshold);
    prev := prev0;
    for i := 0 to |fs|
      invariant prev == if i == 0 then prev0 else Some(hs[i - 1])
      invariant forall k :: 0 <= k < i ==> fs[k].isSimilarToPrev == flags[k]
    {
      var img := fs[i];
      assert img in fs;
      var current := hash(Join(chunk.dirname, img.filename));
      PredecessorFlagsAt(prev0, hs, diff, threshold, i);
      img.isSimilarToPrev := prev.Some? && diff(prev.value, current) <= threshold;
      prev := Some(current);
    }
  }

  /** Replacing one list by a permutation of it keeps the lists separate. */
  lemma SeparateListsPermute(lists: seq<seq<FileResult>>, i: nat, s: seq<FileResult>)
    requires SeparateLists(lists) && i < |lists| && multiset(s) == multiset(lists[i])
    ensures SeparateLists(lists[i := s])
  {
    var lists' := lists[i := s];
    DistinctPermutation(lists[i], s);
    PermutationMembers(lists[i], s);
    forall c, d, f | 0 <= c < d < |lists'| && f in lists'[c] ensures f !in lists'[d] {
      assert f in lists[c];
      assert f !in lists[d];
    }
  }

  lemma PermutationMembers<T>(s: seq<T>, t: seq<T>)
    requires multiset(s) == multiset(t)
    ensures forall x :: x in t ==> x in s
  {
    forall x | x in t ensures x in s {
      assert x in multiset(t);
    }
  }

  /** The first half of a pass of the outer loop: sort chunk `i` in place. */
  method SortChunk(chunks: seq<DirChunk>, i: nat, ghost cur: seq<seq<FileResult>>)
    returns (ghost cur': seq<seq<FileResult>>)
    requires i < |chunks| == |cur| && Distinct(chunks) && SeparateLists(cur)
    requires forall c :: 0 <= c < |chunks| ==> chunks[c].fileresults == cur[c]
    modifies chunks[i]
    ensures cur' == cur[i := SortedByFilename(cur[i])] && SeparateLists(cur')
    ensures forall f :: f in cur'[i] ==> f in cur[i]
    ensures forall c :: 0 <= c < |chunks| ==> chunks[c].fileresults == cur'[c]
  {
    var chunk := chunks[i];
    chunk.SortByFilename();
    SortedPermutes(cur[i]);
    SeparateListsPermute(cur, i, chunk.fileresults);
    PermutationMembers(cur[i], chunk.fileresults);
    cur' := cur[i := chunk.fileresults];
  }

  /** One pass of the outer loop: sort chunk `i`, then classify its images. */
  method SortAndClassify<H>(chunks: seq<DirChunk>, i: nat, ghost cur: seq<seq<FileResult>>,
                            ghost want: seq<seq<bool>>, prev0: Option<H>,
                            hash: string -> H, diff: (H, H) -> nat, threshold: int)
    returns (ghost cur': seq<seq<FileResult>>, prev: Option<H>)
    requires i < |chunks| == |cur| <= |want| && Distinct(chunks) && SeparateLists(cur)
    requires forall c :: 0 <= c < |chunks| ==> chunks[c].fileresults == cur[c]
    requires want[i] == ChunkFlags(chunks[i].dirname, Filenames(SortedByFilename(cur[i])), hash, diff, threshold)
    requires prev0 == None
    requires forall c, k :: 0 <= c < i && 0 <= k < |cur[c]| && k < |want[c]| ==>
      cur[c][k].isSimilarToPrev == want[c][k]
    modifies chunks[i], cur[i]
    ensures cur' == cur[i := SortedByFilename(cur[i])] && SeparateLists(cur')
    ensures forall f :: f in cur'[i] ==> f in cur[i]
    ensures forall c :: 0 <= c < |chunks| ==> chunks[c].fileresults == cur'[c]
    ensures forall c, k :: 0 <= c <= i && 0 <= k < |cur'[c]| && k < |want[c]| ==>
      cur'[c][k].isSimilarToPrev == want[c][k]
  {
    var chunk := chunks[i];
    cur' := SortChunk(chunks, i, cur);
    prev := ClassifyFiles(chunk, cur[i], prev0, hash, diff, threshold);
    forall c, k | 0 <= c <= i && 0 <= k < |cur'[c]| && k < |want[c]|
      ensures cur'[c][k].isSimilarToPrev == want[c][k]
    {
      if c < i {
        assert cur[c][k] in cur[c];
        assert cur[c][k] !in cur[i];
      } else {
        assert chunk.fileresults[k].isSimilarToPrev == FlagsOf(chunk.fileresults)[k];
      }
    }
  }

  /** The outer loop: sort each chunk, classify it, and forget the last hash before the next chunk. */
  method ClassifyChunks<H>(chunks: seq<DirChunk>, hash: string -> H, diff: (H, H) -> nat, threshold: int)
    requires Separate(chunks)
    modifies chunks, Images(chunks)
    ensures forall c :: 0 <= c < |chunks| ==> chunks[c].fileresults == SortedByFilename(old(chunks[c].fileresults))
    ensures forall c, k :: 0 <= c < |chunks| && 0 <= k < |chunks[c].fileresults| ==>
      chunks[c].fileresults[k].isSimilarToPrev ==
        ChunkFlags(chunks[c].dirname, Filenames(chunks[c].fileresults), hash, diff, threshold)[k]
  {
    ghost var lists := Lists(chunks);
    ghost var want := seq(|lists|, c requires 0 <= c < |lists| =>
      ChunkFlags(chunks[c].dirname, Filenames(SortedByFilename(lists[c])), hash, diff, threshold));
    ghost var cur := lists;
    ghost var images := Images(chunks);
    var prev: Option<H> := None;
    for i := 0 to |chunks|
      invariant prev == None
      invariant |cur| == |chunks| && SeparateLists(cur)
      invariant forall c :: 0 <= c < |chunks| ==> chunks[c].fileresults == cur[c]
      invariant forall c :: 0 <= c < |chunks| ==> cur[c] == if c < i then SortedByFilename(lists[c]) else lists[c]
      invariant forall c, k :: 0 <= c < i && 0 <= k < |cur[c]| && k < |want[c]| ==>
        cur[c][k].isSimilarToPrev == want[c][k]
      invariant forall c, f :: 0 <= c < |cur| && f in cur[c] ==> f in images
    {
      cur, prev := SortAndClassify(chunks, i, cur, want, prev, hash, diff, threshold);
      prev := None;
    }
  }

  /**
   * Everything after the directory scan: group the image paths per
   * directory, then sort and classify every chunk.
   */
  method SplitAndClassify<H>(allImgPaths: seq<string>, hash: string -> H, diff: (H, H) -> nat, threshold: int)
    returns (chunks: seq<DirChunk>)
    ensures |chunks| == |DistinctDirs(allImgPaths)|
    ensures forall c :: 0 <= c < |chunks| ==>
      chunks[c].dirname == DistinctDirs(allImgPaths)[c] &&
      multiset(Filenames(chunks[c].fileresults)) == multiset(FilesIn(allImgPaths, chunks[c].dirname)) &&
      OrderedByFilename(chunks[c].fileresults)
    ensures forall c, k :: 0 <= c < |chunks| && 0 <= k < |chunks[c].fileresults| ==>
      chunks[c].fileresults[k].isSimilarToPrev ==
        ChunkFlags(chunks[c].dirname, Filenames(chunks[c].fileresults), hash, diff, threshold)[k]
  {
    chunks := SplitImgsPerDir(allImgPaths);
    ghost var lists := Lists(chunks);
    ClassifyChunks(chunks, hash, diff, threshold);
    forall c | 0 <= c < |chunks|
      ensures multiset(Filenames(chunks[c].fileresults)) == multiset(FilesIn(allImgPaths, chunks[c].dirname))
      ensures OrderedByFilename(chunks[c].fileresults)
    {
      SortedPermutes(lists[c]);
      SortedIsOrdered(lists[c]);
    }
  }
}
