/**
 * The few operations on Python `str` values that the core relies on:
 * `startswith`, `endswith`, the substring test `w in s`, `replace` and
 * the ordering that `sort` uses (comparison of code points, left to right).
 */
module Strings {

  predicate StartsWith(s: string, w: string) {
    |w| <= |s| && s[..|w|] == w
  }

  predicate EndsWith(s: string, w: string) {
    |w| <= |s| && s[|s| - |w|..] == w
  }

  /** `w` occurs in `s` starting at index `i`. */
  predicate OccursAt(s: string, w: string, i: nat) {
    i + |w| <= |s| && s[i..i + |w|] == w
  }

  /** Python's `w in s` for two strings. */
  predicate Contains(s: string, w: string) {
    exists i | 0 <= i <= |s| - |w| :: OccursAt(s, w, i)
  }

  /**
   * Python's `s.replace(pat, rep)`: scanning left to right, every
   * occurrence of `pat` that does not overlap an earlier replaced one
   * becomes `rep`.
   */
  function Replace(s: string, pat: string, rep: string): string
    requires pat != []
    decreases |s|
  {
    if s == [] then []
    else if StartsWith(s, pat) then rep + Replace(s[|pat|..], pat, rep)
    else [s[0]] + Replace(s[1..], pat, rep)
  }

  /** A string in which `pat` does not occur is left as it is. */
  lemma {:induction false} ReplaceAbsent(s: string, pat: string, rep: string)
    requires pat != [] && !Contains(s, pat)
    ensures Replace(s, pat, rep) == s
    decreases |s|
  {
    if s != [] {
      assert !StartsWith(s, pat) by {
        if StartsWith(s, pat) { assert OccursAt(s, pat, 0); }
      }
      assert !Contains(s[1..], pat) by {
        if Contains(s[1..], pat) {
          var i :| 0 <= i <= |s[1..]| - |pat| && OccursAt(s[1..], pat, i);
          assert s[1..][i..i + |pat|] == s[i + 1..i + 1 + |pat|];
          assert OccursAt(s, pat, i + 1);
        }
      }
      ReplaceAbsent(s[1..], pat, rep);
    }
  }

  lemma StartsWithCons(c: char, u: string, w: string)
    ensures StartsWith([c] + u, w) <==> w == [] || (w[0] == c && StartsWith(u, w[1..]))
  {
    if w != [] && |w| <= |u| + 1 {
      assert ([c] + u)[..|w|] == [c] + u[..|w| - 1];
      if ([c] + u)[..|w|] == w {
        assert w == [w[0]] + w[1..];
      }
    }
  }

  lemma StartsWithLonger(s: string, pat: string, suffix: string)
    ensures StartsWith(s, pat + suffix) ==> StartsWith(s, pat)
  {
    if StartsWith(s, pat + suffix) {
      assert s[..|pat|] == (pat + suffix)[..|pat|];
    }
  }

  /**
   * When `w` avoids the first character of `rep`, an output of `Replace`
   * that starts with `w` comes from an input that starts with `w`.
   */
  lemma {:induction false} ReplaceStartsWith(u: string, w: string, pat: string, rep: string)
    requires pat != [] && rep != [] && rep[0] !in w
    ensures StartsWith(Replace(u, pat, rep), w) ==> StartsWith(u, w)
    decreases |u|
  {
    if w != [] && u != [] {
      if StartsWith(u, pat) {
        assert Replace(u, pat, rep)[0] == rep[0];
      } else {
        var rest := Replace(u[1..], pat, rep);
        assert Replace(u, pat, rep) == [u[0]] + rest;
        StartsWithCons(u[0], rest, w);
        StartsWithCons(u[0], u[1..], w);
        assert u == [u[0]] + u[1..];
        ReplaceStartsWith(u[1..], w[1..], pat, rep);
      }
    }
  }

  /**
   * Replacing `pat` by `pat + suffix` can be undone by replacing
   * `pat + suffix` by `pat`, provided the first character of `pat` occurs
   * nowhere else in `pat + suffix`.
   */
  lemma {:induction false} ReplaceRoundTrip(s: string, pat: string, suffix: string)
    requires pat != [] && pat[0] !in (pat + suffix)[1..]
    ensures Replace(Replace(s, pat, pat + suffix), pat + suffix, pat) == s
    decreases |s|
  {
    var rep := pat + suffix;
    if s != [] {
      if StartsWith(s, pat) {
        var rest := Replace(s[|pat|..], pat, rep);
        assert (rep + rest)[..|rep|] == rep;
        assert (rep + rest)[|rep|..] == rest;
        ReplaceRoundTrip(s[|pat|..], pat, suffix);
        assert s == pat + s[|pat|..];
      } else {
        var rest := Replace(s[1..], pat, rep);
        ReplaceStartsWith(s[1..], rep[1..], pat, rep);
        StartsWithCons(s[0], rest, rep);
        StartsWithCons(s[0], s[1..], rep);
        assert s == [s[0]] + s[1..];
        StartsWithLonger(s, pat, suffix);
        assert ([s[0]] + rest)[1..] == rest;
        ReplaceRoundTrip(s[1..], pat, suffix);
      }
    }
  }

  /** `Replace` introduces no character that neither `s` nor `rep` holds. */
  lemma {:induction false} ReplaceChars(s: string, pat: string, rep: string, c: char)
    requires pat != [] && c !in s && c !in rep
    ensures c !in Replace(s, pat, rep)
    decreases |s|
  {
    if s != [] {
      if StartsWith(s, pat) {
        ReplaceChars(s[|pat|..], pat, rep, c);
      } else {
        ReplaceChars(s[1..], pat, rep, c);
      }
    }
  }

  /** Python's `a <= b` on strings: code points compared left to right, a prefix first. */
  predicate LessEq(a: string, b: string)
    decreases |a|
  {
    a == [] || (b != [] && (a[0] < b[0] || (a[0] == b[0] && LessEq(a[1..], b[1..]))))
  }

  lemma {:induction false} LessEqReflexive(a: string)
    ensures LessEq(a, a)
    decreases |a|
  {
    if a != [] { LessEqReflexive(a[1..]); }
  }

  lemma {:induction false} LessEqTotal(a: string, b: string)
    ensures LessEq(a, b) || LessEq(b, a)
    decreases |a|
  {
    if a != [] && b != [] && a[0] == b[0] { LessEqTotal(a[1..], b[1..]); }
  }

  lemma {:induction false} LessEqTransitive(a: string, b: string, c: string)
    requires LessEq(a, b) && LessEq(b, c)
    ensures LessEq(a, c)
    decreases |a|
  {
    if a != [] && a[0] == b[0] && b[0] == c[0] { LessEqTransitive(a[1..], b[1..], c[1..]); }
  }
}
