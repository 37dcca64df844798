/**
 * Python's `os.path.dirname`, `os.path.basename` and `os.path.join` in
 * their POSIX flavour (`posixpath`), on paths as strings with '/' as the
 * only separator.
 */
module PosixPath {
  import opened Strings

  /** Index just after the last '/', or 0 when there is none: `p.rfind('/') + 1`. */
  function SplitIndex(p: string): (i: nat)
    ensures i <= |p|
    ensures i > 0 ==> p[i - 1] == '/'
    ensures forall j :: i <= j < |p| ==> p[j] != '/'
  {
    if p == [] then 0
    else if p[|p| - 1] == '/' then |p|
    else SplitIndex(p[..|p| - 1])
  }

  predicate AllSlashes(s: string) {
    forall j :: 0 <= j < |s| ==> s[j] == '/'
  }

  /** `s.rstrip('/')`. */
  function RStripSlashes(s: string): string {
    if s != [] && s[|s| - 1] == '/' then RStripSlashes(s[..|s| - 1]) else s
  }

  /** `os.path.basename(p)`: everything after the last '/'. */
  function Basename(p: string): string {
    p[SplitIndex(p)..]
  }

  /**
   * `os.path.dirname(p)`: everything up to the last '/', with trailing
   * slashes removed unless the head consists of slashes only.
   */
  function Dirname(p: string): string {
    var head := p[..SplitIndex(p)];
    if head != [] && !AllSlashes(head) then RStripSlashes(head) else head
  }

  /** `os.path.join(a, b)` for two components. */
  function Join(a: string, b: string): string {
    if StartsWith(b, "/") then b
    else if a == [] || EndsWith(a, "/") then a + b
    else a + "/" + b
  }

  /** A directory as `dirname` returns it: no trailing '/' unless it is all slashes. */
  predicate IsDirname(d: string) {
    d == [] || d[|d| - 1] != '/' || AllSlashes(d)
  }

  lemma {:induction false} RStripNoTrailingSlash(s: string)
    requires !AllSlashes(s)
    ensures var r := RStripSlashes(s); r != [] && r[|r| - 1] != '/'
    decreases |s|
  {
    if s != [] && s[|s| - 1] == '/' {
      assert !AllSlashes(s[..|s| - 1]) by {
        var j :| 0 <= j < |s| && s[j] != '/';
        assert s[..|s| - 1][j] != '/';
      }
      RStripNoTrailingSlash(s[..|s| - 1]);
    }
  }

  /** What `dirname` and `basename` return has the shape `join` expects. */
  lemma DirnameBasenameShape(p: string)
    ensures IsDirname(Dirname(p))
    ensures '/' !in Basename(p)
  {
    var head := p[..SplitIndex(p)];
    if head != [] && !AllSlashes(head) {
      RStripNoTrailingSlash(head);
    }
  }

  /** The last '/' is characterised by the two facts `SplitIndex` ensures. */
  lemma SplitIndexIs(p: string, k: nat)
    requires k <= |p| && (k > 0 ==> p[k - 1] == '/')
    requires forall j :: k <= j < |p| ==> p[j] != '/'
    ensures SplitIndex(p) == k
  {
    var i := SplitIndex(p);
    assert !(i < k) by { assert k > 0 ==> p[k - 1] == '/'; }
    assert !(k < i) by { assert i > 0 ==> p[i - 1] == '/'; }
  }

  /**
   * Joining a directory and a file name and splitting the result again
   * gives back the directory and the file name.
   */
  lemma JoinSplit(d: string, b: string)
    requires IsDirname(d) && '/' !in b
    ensures Dirname(Join(d, b)) == d
    ensures Basename(Join(d, b)) == b
  {
    if b != [] { assert b[0] in b; }
    var p := Join(d, b);
    if d == [] {
      assert p == b;
      SplitIndexIs(p, 0);
    } else if EndsWith(d, "/") {
      assert p == d + b;
      assert AllSlashes(d) by { assert d[|d| - 1] == d[|d| - |"/"|..][0]; }
      forall j | |d| <= j < |p| ensures p[j] != '/' { assert p[j] == b[j - |d|]; }
      SplitIndexIs(p, |d|);
      assert p[..|d|] == d;
      assert p[|d|..] == b;
    } else {
      assert p == d + "/" + b;
      forall j | |d| + 1 <= j < |p| ensures p[j] != '/' { assert p[j] == b[j - |d| - 1]; }
      SplitIndexIs(p, |d| + 1);
      assert p[..|d| + 1] == d + "/";
      assert p[|d| + 1..] == b;
      assert d[|d| - 1] != '/' by { assert d[|d| - |"/"|..] != "/"; }
      assert !AllSlashes(d + "/") by { assert (d + "/")[|d| - 1] != '/'; }
      assert (d + "/")[..|d|] == d;
      assert RStripSlashes(d + "/") == RStripSlashes(d) == d;
    }
  }
}
