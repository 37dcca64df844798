/**
 * The image-name filter of cli.py: `is_img(path)` holds when the regular
 * expression `.+\.(png|jpg|jpeg)$`, compiled with IGNORECASE, matches at
 * the start of `path`.
 */
module CliFilter {

  /** The alternatives of the group `(png|jpg|jpeg)`. */
  const Extensions: seq<string> := ["png", "jpg", "jpeg"]

  /** IGNORECASE for the ASCII letters; no other character folds onto p, n, g, j or e. */
  function LowerAscii(c: char): char {
    if 'A' <= c <= 'Z' then (c as int + 32) as char else c
  }

  predicate EqualsIgnoreCase(a: string, b: string) {
    |a| == |b| && forall i :: 0 <= i < |a| ==> LowerAscii(a[i]) == LowerAscii(b[i])
  }

  predicate NoNewline(s: string) {
    forall j :: 0 <= j < |s| ==> s[j] != '\n'
  }

  /** `s` ends in '.' and `ext` (in any case), with at least one character before the '.'. */
  predicate HasExtension(s: string, ext: string) {
    |s| >= |ext| + 2 && s[|s| - |ext| - 1] == '.' && EqualsIgnoreCase(s[|s| - |ext|..], ext)
  }

  /** The path without the one final newline before which `$` may also match. */
  function Body(path: string): string {
    if path != [] && path[|path| - 1] == '\n' then path[..|path| - 1] else path
  }

  /**
   * `is_img`: without a final newline, the path holds no newline (`.`
   * does not match one) and ends in '.' and one of the extensions, with
   * at least one character before the '.'.
   */
  predicate IsImg(path: string) {
    var body := Body(path);
    NoNewline(body) && exists e | 0 <= e < |Extensions| :: HasExtension(body, Extensions[e])
  }

  /**
   * The regular expression matches with `.+` covering `path[..k]`, the
   * escaped dot at `path[k]`, the group matching `ext` right after it, and
   * `$` at the end of the string or just before a final newline.
   */
  ghost predicate MatchesWith(path: string, k: nat, ext: string) {
    1 <= k && k + 1 + |ext| <= |path| &&
    NoNewline(path[..k]) &&
    path[k] == '.' &&
    EqualsIgnoreCase(path[k + 1..k + 1 + |ext|], ext) &&
    (path[k + 1 + |ext|..] == [] || path[k + 1 + |ext|..] == ['\n'])
  }

  ghost predicate RegexMatches(path: string) {
    exists k: nat, e | 0 <= e < |Extensions| :: MatchesWith(path, k, Extensions[e])
  }

  /** No extension letter is a newline, in either case. */
  lemma ExtensionHasNoNewline(s: string, ext: string)
    requires ext in Extensions && EqualsIgnoreCase(s, ext)
    ensures NoNewline(s)
  {
    forall j | 0 <= j < |s| ensures s[j] != '\n' {
      assert LowerAscii(s[j]) == LowerAscii(ext[j]);
      assert 'a' <= ext[j] <= 'z';
    }
  }

  /** The body is a prefix of the path, followed by nothing or by the final newline. */
  lemma BodyPrefix(path: string)
    ensures |Body(path)| <= |path| && path[..|Body(path)|] == Body(path)
    ensures path[|Body(path)|..] == [] || path[|Body(path)|..] == ['\n']
  {
  }

  /** A body ending in '.' and `ext` gives a match of the whole path with the dot at `k`. */
  lemma BodyMatches(path: string, k: nat, ext: string)
    requires NoNewline(Body(path)) && HasExtension(Body(path), ext)
    requires k == |Body(path)| - |ext| - 1
    ensures MatchesWith(path, k, ext)
  {
    var body := Body(path);
    BodyPrefix(path);
    assert body[..k] == path[..k];
    assert NoNewline(path[..k]) by {
      forall j | 0 <= j < k ensures path[..k][j] != '\n' {
        assert path[..k][j] == body[j];
      }
    }
    assert path[k + 1..k + 1 + |ext|] == body[|body| - |ext|..];
    assert path[k] == body[k];
    assert path[k + 1 + |ext|..] == path[|body|..];
  }

  lemma IsImgMatches(path: string)
    requires IsImg(path)
    ensures RegexMatches(path)
  {
    var body := Body(path);
    var e :| 0 <= e < |Extensions| && HasExtension(body, Extensions[e]);
    var k := |body| - |Extensions[e]| - 1;
    BodyMatches(path, k, Extensions[e]);
  }

  /** Where the regular expression matches, `$` matched at the end of the body. */
  lemma MatchBody(path: string, k: nat, ext: string)
    requires ext in Extensions && MatchesWith(path, k, ext)
    ensures Body(path) == path[..k + 1 + |ext|]
  {
    var n := k + 1 + |ext|;
    var tail := path[k + 1..n];
    ExtensionHasNoNewline(tail, ext);
    assert path[n - 1] == tail[|ext| - 1];
    if path[n..] == [] {
      assert path == path[..n];
    } else {
      assert path[n..][0] == path[|path| - 1];
    }
  }

  lemma MatchesIsImg(path: string, k: nat, e: nat)
    requires e < |Extensions| && MatchesWith(path, k, Extensions[e])
    ensures IsImg(path)
  {
    var ext := Extensions[e];
    var n := k + 1 + |ext|;
    var tail := path[k + 1..n];
    MatchBody(path, k, ext);
    ExtensionHasNoNewline(tail, ext);
    assert path[..n] == path[..k] + ['.'] + tail;
    assert NoNewline(path[..n]);
    assert HasExtension(path[..n], ext);
  }

  /** `is_img` holds exactly when the regular expression matches. */
  lemma IsImgIffRegexMatches(path: string)
    ensures IsImg(path) <==> RegexMatches(path)
  {
    if IsImg(path) {
      IsImgMatches(path);
    }
    if RegexMatches(path) {
      var k: nat, e :| 0 <= e < |Extensions| && MatchesWith(path, k, Extensions[e]);
      MatchesIsImg(path, k, e);
    }
  }

  /** `list(filter(is_img, all_files))`: the image paths among the files, in listing order. */
  function AllImgs(files: seq<string>): (r: seq<string>)
    ensures forall p :: p in r <==> p in files && IsImg(p)
    ensures |r| <= |files|
  {
    if files == [] then []
    else (if IsImg(files[0]) then [files[0]] else []) + AllImgs(files[1..])
  }
}
