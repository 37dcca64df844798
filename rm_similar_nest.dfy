/**
 * rmsimilar_nest.py: for every class directory of an input directory, walk
 * its listing once, comparing each image with the current anchor image, and
 * append to a batch file one `move` command for every image whose hash is
 * within 20 of the anchor's. The anchor stays put while images keep
 * matching it and moves on to the image just compared after a mismatch.
 *
 * Image hashing is a parameter `hasher` that may fail (`None`, an
 * `OSError`), and the difference of two hashes a parameter `diff`.
 * The file system is given as a snapshot: the entries of the input
 * directory with, for each directory, its listing.
 */
module RmSimilarNest {
  import opened Options
  import opened Strings
  import opened PosixPath

  /** A pair whose hash difference is at most this is similar. */
  const Threshold: nat := 20
  const Marker: string := "field_additional"
  const ExcludeMarker: string := "field_additional_exclude"
  const DbMarker: string := ".db"
  const TxtSuffix: string := "txt"

  // ---------------------------------------------------------------------
  // The pieces of one comparison
  // ---------------------------------------------------------------------

  /** The listing without the entries whose names end in "txt", in listing order. */
  function ImageList(listing: seq<string>): (images: seq<string>)
    ensures |images| <= |listing|
  {
    if listing == [] then []
    else (if EndsWith(listing[0], TxtSuffix) then [] else [listing[0]]) + ImageList(listing[1..])
  }

  /** The images are exactly the entries of the listing whose names do not end in "txt". */
  lemma {:induction false} ImageListMembers(listing: seq<string>, x: string)
    ensures x in ImageList(listing) <==> x in listing && !EndsWith(x, TxtSuffix)
    decreases |listing|
  {
    if listing != [] {
      ImageListMembers(listing[1..], x);
      assert listing == [listing[0]] + listing[1..];
    }
  }

  /** Filtering a listing piece by piece gives the same result: the filter keeps the listing order. */
  lemma {:induction false} ImageListAppend(a: seq<string>, b: seq<string>)
    ensures ImageList(a + b) == ImageList(a) + ImageList(b)
    decreases |a|
  {
    if a != [] {
      assert (a + b)[0] == a[0];
      assert (a + b)[1..] == a[1..] + b;
      ImageListAppend(a[1..], b);
      var head := if EndsWith(a[0], TxtSuffix) then [] else [a[0]];
      assert ImageList(a + b) == head + ImageList(a[1..] + b);
      assert ImageList(a) == head + ImageList(a[1..]);
      AppendAssociates(head, ImageList(a[1..]), ImageList(b));
    } else {
      assert a + b == b;
    }
  }

  /** `d_hash(img, otherimg)`: the difference of the two hashes, or `None` when either cannot be read. */
  function DHash<H>(hasher: string -> Option<H>, diff: (H, H) -> nat, img: string, otherimg: string): Option<nat> {
    match (hasher(img), hasher(otherimg))
    case (Some(h), Some(o)) => Some(diff(h, o))
    case _ => None
  }

  /** The iteration is abandoned: a ".db" path, or a hash that cannot be computed. */
  predicate Skipped<H>(hasher: string -> Option<H>, diff: (H, H) -> nat, img1: string, img2: string) {
    Contains(img1, DbMarker) || Contains(img2, DbMarker) || DHash(hasher, diff, img1, img2).None?
  }

  /** The pair is compared and found similar. */
  predicate SimilarPair<H>(hasher: string -> Option<H>, diff: (H, H) -> nat, img1: string, img2: string) {
    !Skipped(hasher, diff, img1, img2) && DHash(hasher, diff, img1, img2).value <= Threshold
  }

  /** Where a similar image is moved: every "field_additional" of its path becomes "field_additional_exclude". */
  function Destination(img2: string): string {
    Replace(img2, Marker, ExcludeMarker)
  }

  /** A path outside any "field_additional" tree is "moved" onto itself. */
  lemma DestinationUnchanged(img2: string)
    requires !Contains(img2, Marker)
    ensures Destination(img2) == img2
  {
    ReplaceAbsent(img2, Marker, ExcludeMarker);
  }

  /** The destination determines the source path: the rewriting can be undone. */
  lemma DestinationRoundTrip(img2: string)
    ensures Replace(Destination(img2), ExcludeMarker, Marker) == img2
  {
    assert ExcludeMarker == Marker + "_exclude";
    assert Marker[0] !in ExcludeMarker[1..];
    ReplaceRoundTrip(img2, Marker, "_exclude");
  }

  /** The batch command that moves `img2` to `dest`. */
  function MoveLine(img2: string, dest: string): string {
    "move \"" + img2 + "\" \"" + dest + "\"\n"
  }

  /** The text before the first `c` in `s`, and the text after it. */
  function SplitAt(s: string, c: char): Option<(string, string)>
    decreases |s|
  {
    if s == [] then None
    else if s[0] == c then Some(([], s[1..]))
    else match SplitAt(s[1..], c)
      case None => None
      case Some((before, after)) => Some(([s[0]] + before, after))
  }

  /** How a batch interpreter reads a `move` line with two quoted paths. */
  function ParseMoveLine(line: string): Option<(string, string)> {
    if !StartsWith(line, "move \"") then None
    else match SplitAt(line[6..], '"')
      case None => None
      case Some((src, rest)) =>
        if !StartsWith(rest, " \"") then None
        else match SplitAt(rest[2..], '"')
          case None => None
          case Some((dst, tail)) => if tail == "\n" then Some((src, dst)) else None
  }

  lemma {:induction false} SplitAtFirst(before: string, c: char, after: string)
    requires c !in before
    ensures SplitAt(before + [c] + after, c) == Some((before, after))
    decreases |before|
  {
    if before != [] {
      assert (before + [c] + after)[0] == before[0];
      assert (before + [c] + after)[1..] == before[1..] + [c] + after;
      SplitAtFirst(before[1..], c, after);
      assert [before[0]] + before[1..] == before;
    }
  }

  /** A move line gives back its two paths, as long as neither holds a double quote. */
  lemma MoveLineParses(img2: string, dest: string)
    requires '"' !in img2 && '"' !in dest
    ensures ParseMoveLine(MoveLine(img2, dest)) == Some((img2, dest))
  {
    var line := MoveLine(img2, dest);
    var rest := " \"" + dest + "\"\n";
    assert line[..6] == "move \"";
    assert line[6..] == img2 + ['"'] + rest;
    SplitAtFirst(img2, '"', rest);
    assert rest[..2] == " \"";
    assert rest[2..] == dest + ['"'] + "\n";
    SplitAtFirst(dest, '"', "\n");
  }

  /** The destination of a path without double quotes has none either, so its move line reads back. */
  lemma MoveLineOfPathParses(img2: string)
    requires '"' !in img2
    ensures ParseMoveLine(MoveLine(img2, Destination(img2))) == Some((img2, Destination(img2)))
  {
    ReplaceChars(img2, Marker, ExcludeMarker, '"');
    MoveLineParses(img2, Destination(img2));
  }

  // ---------------------------------------------------------------------
  // The loop over one class directory, as a function of the iteration count
  // ---------------------------------------------------------------------

  /**
   * The loop state after some iterations: `chtargetflg`, the index of
   * `img1` (meaningful once the flag has been false), and the indices of
   * the images moved so far, in order.
   */
  datatype Loop = Loop(flg: bool, anchor: nat, targets: seq<nat>)

  /** `range(0, length - 1)` has this many iterations. */
  function Iterations(length: nat): nat {
    if length == 0 then 0 else length - 1
  }

  /** The index of `img1` in iteration `i`, entered with state `s`. */
  function AnchorAt(s: Loop, i: nat): nat {
    if s.flg then i else s.anchor
  }

  /** The path of image `k` of the class directory. */
  function PathOf(classDir: string, images: seq<string>, k: nat): string
    requires k < |images|
  {
    Join(classDir, images[k])
  }

  /**
   * The loop state after the first `n` iterations. Iteration `i` compares
   * image `i + 1` with `img1`, so the images moved are indices from 1 to
   * `n` (the first image of a directory is never moved), and the flag is
   * false right after a move.
   */
  function Run<H>(classDir: string, images: seq<string>, hasher: string -> Option<H>, diff: (H, H) -> nat, n: nat): (r: Loop)
    requires n <= Iterations(|images|)
    ensures r.anchor <= n
    ensures forall j :: 0 <= j < |r.targets| ==> 1 <= r.targets[j] <= n
    ensures n in r.targets ==> !r.flg
    decreases n
  {
    if n == 0 then Loop(true, 0, [])
    else
      var s := Run(classDir, images, hasher, diff, n - 1);
      var a := AnchorAt(s, n - 1);
      var img1 := PathOf(classDir, images, a);
      var img2 := PathOf(classDir, images, n);
      if Skipped(hasher, diff, img1, img2) then Loop(s.flg, a, s.targets)
      else if DHash(hasher, diff, img1, img2).value <= Threshold then Loop(false, a, s.targets + [n])
      else Loop(true, a, s.targets)
  }

  /** One iteration adds image `n` to the moved images exactly when it is similar to the anchor. */
  lemma RunStep<H>(classDir: string, images: seq<string>, hasher: string -> Option<H>,
                   diff: (H, H) -> nat, n: nat)
    requires 0 < n <= Iterations(|images|)
    ensures var s := Run(classDir, images, hasher, diff, n - 1);
      var t := Run(classDir, images, hasher, diff, n);
      var a := AnchorAt(s, n - 1);
      var similar := SimilarPair(hasher, diff, PathOf(classDir, images, a), PathOf(classDir, images, n));
      t.anchor == a &&
      t.targets == s.targets + (if similar then [n] else []) &&
      (similar ==> !t.flg)
  {
  }

  lemma MovedNew<H>(classDir: string, images: seq<string>, hasher: string -> Option<H>,
                    diff: (H, H) -> nat, n: nat)
    requires 0 < n <= Iterations(|images|)
    ensures n in Run(classDir, images, hasher, diff, n).targets <==>
      SimilarPair(hasher, diff,
                  PathOf(classDir, images, AnchorAt(Run(classDir, images, hasher, diff, n - 1), n - 1)),
                  PathOf(classDir, images, n))
  {
    RunStep(classDir, images, hasher, diff, n);
    assert n !in Run(classDir, images, hasher, diff, n - 1).targets;
  }

  lemma MovedEarlier<H>(classDir: string, images: seq<string>, hasher: string -> Option<H>,
                        diff: (H, H) -> nat, n: nat, k: nat)
    requires 0 < n <= Iterations(|images|) && k != n
    ensures k in Run(classDir, images, hasher, diff, n).targets <==> k in Run(classDir, images, hasher, diff, n - 1).targets
  {
    RunStep(classDir, images, hasher, diff, n);
  }

  /**
   * The moved images are strictly increasing indices, so each is moved
   * once, and the anchor is never one of them.
   */
  lemma {:induction false} RunShape<H>(classDir: string, images: seq<string>, hasher: string -> Option<H>,
                                       diff: (H, H) -> nat, n: nat)
    requires n <= Iterations(|images|)
    ensures var r := Run(classDir, images, hasher, diff, n);
      |r.targets| <= n &&
      (forall j, j' :: 0 <= j < j' < |r.targets| ==> r.targets[j] < r.targets[j']) &&
      r.anchor !in r.targets
    decreases n
  {
    if n > 0 {
      RunShape(classDir, images, hasher, diff, n - 1);
      RunStep(classDir, images, hasher, diff, n);
    }
  }

  /** Image `k` is among those moved by the first `n` iterations. */
  predicate Moved<H>(classDir: string, images: seq<string>, hasher: string -> Option<H>,
                     diff: (H, H) -> nat, n: nat, k: nat)
    requires n <= Iterations(|images|)
  {
    k in Run(classDir, images, hasher, diff, n).targets
  }

  /** Image `k` is moved exactly when iteration `k - 1` finds it similar to that iteration's anchor. */
  lemma {:induction false} MovedIff<H>(classDir: string, images: seq<string>, hasher: string -> Option<H>,
                                       diff: (H, H) -> nat, n: nat, k: nat)
    requires n <= Iterations(|images|)
    ensures Moved(classDir, images, hasher, diff, n, k) <==>
      1 <= k <= n &&
      SimilarPair(hasher, diff,
                  PathOf(classDir, images, AnchorAt(Run(classDir, images, hasher, diff, k - 1), k - 1)),
                  PathOf(classDir, images, k))
    decreases n
  {
    if n > 0 {
      if k == n {
        MovedNew(classDir, images, hasher, diff, n);
      } else {
        MovedIff(classDir, images, hasher, diff, n - 1, k);
        MovedEarlier(classDir, images, hasher, diff, n, k);
      }
    }
  }

  /** Whether an image is moved is settled by the iteration that compares it; later ones keep it. */
  lemma DecidedOnce<H>(classDir: string, images: seq<string>, hasher: string -> Option<H>,
                       diff: (H, H) -> nat, m: nat, n: nat, a: nat)
    requires a <= m <= n <= Iterations(|images|)
    ensures Moved(classDir, images, hasher, diff, m, a) <==> Moved(classDir, images, hasher, diff, n, a)
  {
    MovedIff(classDir, images, hasher, diff, n, a);
    MovedIff(classDir, images, hasher, diff, m, a);
  }

  /**
   * Every moved image was found similar to an earlier image that stays:
   * the anchor it was compared with is never moved.
   */
  lemma MovedHasKeptAnchor<H>(classDir: string, images: seq<string>, hasher: string -> Option<H>,
                              diff: (H, H) -> nat, n: nat, k: nat)
    requires n <= Iterations(|images|) && Moved(classDir, images, hasher, diff, n, k)
    ensures exists a :: (0 <= a < k && !Moved(classDir, images, hasher, diff, n, a) &&
      SimilarPair(hasher, diff, PathOf(classDir, images, a), PathOf(classDir, images, k)))
  {
    MovedIff(classDir, images, hasher, diff, n, k);
    var s := Run(classDir, images, hasher, diff, k - 1);
    var a := AnchorAt(s, k - 1);
    RunShape(classDir, images, hasher, diff, k - 1);
    assert a < k;
    assert a !in s.targets;
    DecidedOnce(classDir, images, hasher, diff, k - 1, n, a);
    assert SimilarPair(hasher, diff, PathOf(classDir, images, a), PathOf(classDir, images, k));
  }

  /**
   * No drift: while every compared image is found similar, the anchor
   * stays the image the run of matches started from.
   */
  lemma {:induction false} NoDrift<H>(classDir: string, images: seq<string>, hasher: string -> Option<H>,
                                      diff: (H, H) -> nat, i: nat, j: nat)
    requires i <= j <= Iterations(|images|)
    requires forall k :: i < k <= j ==> Moved(classDir, images, hasher, diff, j, k)
    ensures AnchorAt(Run(classDir, images, hasher, diff, j), j) == AnchorAt(Run(classDir, images, hasher, diff, i), i)
    decreases j
  {
    if i < j {
      var p := j - 1;
      forall k | i < k <= p ensures Moved(classDir, images, hasher, diff, p, k) {
        assert Moved(classDir, images, hasher, diff, j, k);
        MovedIff(classDir, images, hasher, diff, j, k);
        MovedIff(classDir, images, hasher, diff, p, k);
      }
      NoDrift(classDir, images, hasher, diff, i, p);
      assert Moved(classDir, images, hasher, diff, j, j);
    }
  }

  /**
   * One iteration: `img1` is the anchor image when the flag is clear and
   * image `i` when it is set. A skipped pair changes nothing else, a
   * similar pair moves image `i + 1` and clears the flag, and a dissimilar
   * pair sets the flag, so that image `i + 1` becomes the next anchor.
   */
  lemma AnchorRule<H>(classDir: string, images: seq<string>, hasher: string -> Option<H>,
                      diff: (H, H) -> nat, i: nat)
    requires i + 1 <= Iterations(|images|)
    ensures var s := Run(classDir, images, hasher, diff, i);
      var img1 := PathOf(classDir, images, AnchorAt(s, i));
      var img2 := PathOf(classDir, images, i + 1);
      var t := Run(classDir, images, hasher, diff, i + 1);
      t.anchor == AnchorAt(s, i) &&
      (Skipped(hasher, diff, img1, img2) ==> t.flg == s.flg && t.targets == s.targets) &&
      (SimilarPair(hasher, diff, img1, img2) ==> !t.flg && t.targets == s.targets + [i + 1]) &&
      (!Skipped(hasher, diff, img1, img2) && !SimilarPair(hasher, diff, img1, img2) ==>
         t.flg && t.targets == s.targets)
  {
  }

  lemma JoinPlain(a: string, b: string)
    requires a != [] && a[|a| - 1] != '/' && b != [] && b[0] != '/'
    ensures Join(a, b) == a + "/" + b
  {
    assert !StartsWith(b, "/") by { assert b[..1][0] == b[0]; }
    assert !EndsWith(a, "/") by { assert a[|a| - 1..][0] == a[|a| - 1]; }
  }

  lemma NoDbIn(s: string)
    requires '.' !in s
    ensures !Contains(s, DbMarker)
  {
    forall i | 0 <= i <= |s| - |DbMarker| ensures !OccursAt(s, DbMarker, i) {
      assert s[i..i + |DbMarker|][0] == s[i];
    }
  }

  /** A hasher that cannot read "d/b" and gives every other image the same hash. */
  function UnreadableB(p: string): Option<int> {
    if p == "d/b" then None else Some(0)
  }

  function NoDifference(x: int, y: int): nat {
    0
  }

  /**
   * A skipped comparison while the flag is set still moves the anchor: with
   * "d/b" unreadable, "d/c" is compared with "d/b" rather than with "d/a",
   * and is kept although it matches "d/a" exactly.
   */
  lemma SkipMovesAnchor()
    ensures Run("d", ["a", "b", "c"], UnreadableB, NoDifference, 2).targets == []
    ensures SimilarPair(UnreadableB, NoDifference, "d/a", "d/c")
  {
    var images := ["a", "b", "c"];
    JoinPlain("d", "a");
    JoinPlain("d", "b");
    JoinPlain("d", "c");
    assert PathOf("d", images, 0) == "d/a";
    assert PathOf("d", images, 1) == "d/b";
    assert PathOf("d", images, 2) == "d/c";
    assert UnreadableB("d/b") == None;
    assert Run("d", images, UnreadableB, NoDifference, 1) == Loop(true, 0, []);
    assert Run("d", images, UnreadableB, NoDifference, 2) == Loop(true, 1, []);
    NoDbIn("d/a");
    NoDbIn("d/c");
    assert "d/a" != "d/b" && "d/c" != "d/b";
  }

  /** The move lines for the moved images, in order. */
  function MoveLines(classDir: string, images: seq<string>, targets: seq<nat>): seq<string>
    requires forall j :: 0 <= j < |targets| ==> targets[j] < |images|
  {
    seq(|targets|, j requires 0 <= j < |targets| =>
      MoveLine(PathOf(classDir, images, targets[j]), Destination(PathOf(classDir, images, targets[j]))))
  }

  lemma MoveLinesSnoc(classDir: string, images: seq<string>, targets: seq<nat>, k: nat)
    requires forall j :: 0 <= j < |targets| ==> targets[j] < |images|
    requires k < |images|
    ensures MoveLines(classDir, images, targets + [k]) ==
      MoveLines(classDir, images, targets) + [MoveLine(PathOf(classDir, images, k), Destination(PathOf(classDir, images, k)))]
  {
  }

  /** Everything the loop writes for one class directory. */
  function ClassDirLines<H>(classDir: string, listing: seq<string>, hasher: string -> Option<H>,
                            diff: (H, H) -> nat): (lines: seq<string>)
    ensures |ImageList(listing)| < 2 ==> lines == []
    ensures |lines| <= Iterations(|ImageList(listing)|)
  {
    var images := ImageList(listing);
    RunShape(classDir, images, hasher, diff, Iterations(|images|));
    MoveLines(classDir, images, Run(classDir, images, hasher, diff, Iterations(|images|)).targets)
  }

  /**
   * `line` moves image `k` of the directory, which was found similar to an
   * earlier image `a` that the first `n` iterations do not move.
   */
  ghost predicate MovesSimilarImage<H>(classDir: string, images: seq<string>, hasher: string -> Option<H>,
                                       diff: (H, H) -> nat, n: nat, line: string)
    requires n <= Iterations(|images|)
  {
    exists k, a :: 0 <= a < k < |images| &&
      line == MoveLine(PathOf(classDir, images, k), Destination(PathOf(classDir, images, k))) &&
      SimilarPair(hasher, diff, PathOf(classDir, images, a), PathOf(classDir, images, k)) &&
      !Moved(classDir, images, hasher, diff, n, a)
  }

  lemma MovesSimilarImageIntro<H>(classDir: string, images: seq<string>, hasher: string -> Option<H>,
                                  diff: (H, H) -> nat, n: nat, line: string, k: nat, a: nat)
    requires n <= Iterations(|images|) && a < k < |images|
    requires line == MoveLine(PathOf(classDir, images, k), Destination(PathOf(classDir, images, k)))
    requires SimilarPair(hasher, diff, PathOf(classDir, images, a), PathOf(classDir, images, k))
    requires !Moved(classDir, images, hasher, diff, n, a)
    ensures MovesSimilarImage(classDir, images, hasher, diff, n, line)
  {
  }

  /**
   * Every line written for a class directory moves an image that was found
   * similar to an earlier image of the directory, and that image stays.
   */
  lemma MoveLinesSound<H>(classDir: string, listing: seq<string>, hasher: string -> Option<H>,
                          diff: (H, H) -> nat, j: nat)
    requires j < |ClassDirLines(classDir, listing, hasher, diff)|
    ensures MovesSimilarImage(classDir, ImageList(listing), hasher, diff, Iterations(|ImageList(listing)|),
                              ClassDirLines(classDir, listing, hasher, diff)[j])
  {
    var images := ImageList(listing);
    var n := Iterations(|images|);
    var targets := Run(classDir, images, hasher, diff, n).targets;
    var lines := ClassDirLines(classDir, listing, hasher, diff);
    assert lines == MoveLines(classDir, images, targets);
    var k := targets[j];
    assert k < |images|;
    assert lines[j] == MoveLine(PathOf(classDir, images, k), Destination(PathOf(classDir, images, k)));
    MovedHasKeptAnchor(classDir, images, hasher, diff, n, k);
    var a :| 0 <= a < k && a !in targets &&
      SimilarPair(hasher, diff, PathOf(classDir, images, a), PathOf(classDir, images, k));
    MovesSimilarImageIntro(classDir, images, hasher, diff, n, lines[j], k, a);
  }

  /** Every image the loop decides to move gets its move line. */
  lemma MoveLinesComplete<H>(classDir: string, listing: seq<string>, hasher: string -> Option<H>,
                             diff: (H, H) -> nat, k: nat)
    requires k < |ImageList(listing)|
    requires Moved(classDir, ImageList(listing), hasher, diff, Iterations(|ImageList(listing)|), k)
    ensures var p := PathOf(classDir, ImageList(listing), k);
      MoveLine(p, Destination(p)) in ClassDirLines(classDir, listing, hasher, diff)
  {
    var images := ImageList(listing);
    var targets := Run(classDir, images, hasher, diff, Iterations(|images|)).targets;
    var j :| 0 <= j < |targets| && targets[j] == k;
    assert ClassDirLines(classDir, listing, hasher, diff)[j] ==
      MoveLine(PathOf(classDir, images, k), Destination(PathOf(classDir, images, k)));
  }

  // ---------------------------------------------------------------------
  // The result file and the loops
  // ---------------------------------------------------------------------

  /** The batch file, opened for appending. */
  class ResultFile {
    var lines: seq<string>

    constructor (lines: seq<string>)
      ensures this.lines == lines
    {
      this.lines := lines;
    }

    /** `output.writelines(line)`. */
    method WriteLines(line: string)
      modifies this
      ensures lines == old(lines) + [line]
    {
      lines := lines + [line];
    }
  }

  /**
   * One iteration of the loop over a class directory, entered after `i`
   * iterations: compare image `i + 1` with the anchor and write its move
   * line if they are similar. The early returns are the loop's `continue`s.
   */
  method CompareWithAnchor<H>(classDir: string, imagelist: seq<string>, hasher: string -> Option<H>,
                              diff: (H, H) -> nat, output: ResultFile, ghost prefix: seq<string>,
                              i: nat, chtargetflg: bool, img1: string)
    returns (chtargetflg': bool, img1': string)
    requires i + 1 <= Iterations(|imagelist|)
    requires chtargetflg == Run(classDir, imagelist, hasher, diff, i).flg
    requires i > 0 ==> img1 == PathOf(classDir, imagelist, Run(classDir, imagelist, hasher, diff, i).anchor)
    requires output.lines == prefix + MoveLines(classDir, imagelist, Run(classDir, imagelist, hasher, diff, i).targets)
    modifies output
    ensures chtargetflg' == Run(classDir, imagelist, hasher, diff, i + 1).flg
    ensures img1' == PathOf(classDir, imagelist, Run(classDir, imagelist, hasher, diff, i + 1).anchor)
    ensures output.lines == prefix + MoveLines(classDir, imagelist, Run(classDir, imagelist, hasher, diff, i + 1).targets)
  {
    AnchorRule(classDir, imagelist, hasher, diff, i);
    ghost var s := Run(classDir, imagelist, hasher, diff, i);
    chtargetflg', img1' := chtargetflg, img1;
    if chtargetflg {
      img1' := Join(classDir, imagelist[i]);
    }
    var img2 := Join(classDir, imagelist[i + 1]);
    assert img1' == PathOf(classDir, imagelist, AnchorAt(s, i));
    if Contains(img1', DbMarker) || Contains(img2, DbMarker) {
      return;
    }
    var imghash := DHash(hasher, diff, img1', img2);
    if imghash.None? {
      return;
    }
    if imghash.value <= Threshold {
      var dest := Replace(img2, Marker, ExcludeMarker);
      MoveLinesSnoc(classDir, imagelist, s.targets, i + 1);
      output.WriteLines(MoveLine(img2, dest));
      chtargetflg' := false;
    } else {
      chtargetflg' := true;
    }
  }

  /** The loop over the images of one class directory. */
  method ProcessClassDir<H>(classDir: string, listing: seq<string>, hasher: string -> Option<H>,
                            diff: (H, H) -> nat, output: ResultFile)
    modifies output
    ensures output.lines == old(output.lines) + ClassDirLines(classDir, listing, hasher, diff)
  {
    var imagelist := ImageList(listing);
    var length := |imagelist|;
    var chtargetflg := true;
    var img1 := "";
    for i := 0 to Iterations(length)
      invariant chtargetflg == Run(classDir, imagelist, hasher, diff, i).flg
      invariant i > 0 ==> img1 == PathOf(classDir, imagelist, Run(classDir, imagelist, hasher, diff, i).anchor)
      invariant output.lines == old(output.lines) +
        MoveLines(classDir, imagelist, Run(classDir, imagelist, hasher, diff, i).targets)
    {
      chtargetflg, img1 := CompareWithAnchor(classDir, imagelist, hasher, diff, output, old(output.lines),
                                             i, chtargetflg, img1);
    }
  }

  /** An entry of the input directory: its name, whether it is a directory, and if so its listing. */
  datatype Entry = Entry(name: string, isDir: bool, listing: seq<string>)

  /** What is written for one entry: nothing unless it is a directory. */
  function EntryLines<H>(inputDir: string, entry: Entry, hasher: string -> Option<H>, diff: (H, H) -> nat): seq<string> {
    if entry.isDir then ClassDirLines(Join(inputDir, entry.name), entry.listing, hasher, diff) else []
  }

  /** Everything written for the entries, one class directory after another. */
  function InputDirLines<H>(inputDir: string, entries: seq<Entry>, hasher: string -> Option<H>,
                            diff: (H, H) -> nat): seq<string>
    decreases |entries|
  {
    if entries == [] then []
    else EntryLines(inputDir, entries[0], hasher, diff) + InputDirLines(inputDir, entries[1..], hasher, diff)
  }

  /**
   * Directories are processed independently: the output for a list of
   * entries is the output for any first part followed by that for the rest.
   */
  lemma {:induction false} InputDirAppend<H>(inputDir: string, a: seq<Entry>, b: seq<Entry>,
                                            hasher: string -> Option<H>, diff: (H, H) -> nat)
    ensures InputDirLines(inputDir, a + b, hasher, diff) ==
      InputDirLines(inputDir, a, hasher, diff) + InputDirLines(inputDir, b, hasher, diff)
    decreases |a|
  {
    if a != [] {
      assert (a + b)[0] == a[0];
      assert (a + b)[1..] == a[1..] + b;
      InputDirAppend(inputDir, a[1..], b, hasher, diff);
      AppendAssociates(EntryLines(inputDir, a[0], hasher, diff), InputDirLines(inputDir, a[1..], hasher, diff),
                       InputDirLines(inputDir, b, hasher, diff));
    } else {
      assert a + b == b;
    }
  }

  /** One more entry adds its own class directory's lines, if it is a directory. */
  lemma InputDirSnoc<H>(inputDir: string, entries: seq<Entry>, e: nat, hasher: string -> Option<H>, diff: (H, H) -> nat)
    requires e < |entries|
    ensures InputDirLines(inputDir, entries[..e + 1], hasher, diff) ==
      InputDirLines(inputDir, entries[..e], hasher, diff) +
      EntryLines(inputDir, entries[e], hasher, diff)
  {
    assert entries[..e + 1] == entries[..e] + [entries[e]];
    InputDirAppend(inputDir, entries[..e], [entries[e]], hasher, diff);
    assert [entries[e]][1..] == [];
  }

  lemma AppendAssociates<T>(a: seq<T>, b: seq<T>, c: seq<T>)
    ensures (a + b) + c == a + (b + c)
  {
  }

  /** The body of the outer loop: an entry that is not a directory is skipped. */
  method ProcessEntry<H>(inputDir: string, entry: Entry, hasher: string -> Option<H>,
                         diff: (H, H) -> nat, output: ResultFile)
    modifies output
    ensures output.lines == old(output.lines) + EntryLines(inputDir, entry, hasher, diff)
  {
    var classDir := Join(inputDir, entry.name);
    if !entry.isDir {
      return;
    }
    ProcessClassDir(classDir, entry.listing, hasher, diff, output);
  }

  /** The outer loop: every entry that is a directory is processed as a class directory. */
  method ProcessInputDir<H>(inputDir: string, entries: seq<Entry>, hasher: string -> Option<H>,
                            diff: (H, H) -> nat, output: ResultFile)
    modifies output
    ensures output.lines == old(output.lines) + InputDirLines(inputDir, entries, hasher, diff)
  {
    for e := 0 to |entries|
      invariant output.lines == old(output.lines) + InputDirLines(inputDir, entries[..e], hasher, diff)
    {
      ghost var done := InputDirLines(inputDir, entries[..e], hasher, diff);
      ghost var more := EntryLines(inputDir, entries[e], hasher, diff);
      InputDirSnoc(inputDir, entries, e, hasher, diff);
      ProcessEntry(inputDir, entries[e], hasher, diff, output);
      assert output.lines == (old(output.lines) + done) + more;
      AppendAssociates(old(output.lines), done, more);
    }
    assert entries[..|entries|] == entries;
  }
}
