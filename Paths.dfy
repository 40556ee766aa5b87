/**
 * The slice of Go's `path/filepath` (Windows flavour) that the service uses:
 * joining a directory and a name, recognising an absolute path, and taking
 * the last element of a path.
 */
module Paths {
  import opened Text

  /** Windows accepts both separators; filepath.Join writes the backslash. */
  const Separator: char := '\\'

  predicate IsSeparator(c: char) {
    c == '\\' || c == '/'
  }

  /**
   * filepath.Join(dir, name) for a directory and a single name, without the
   * lexical cleaning of `.`/`..` elements and doubled separators.
   */
  function PathJoin(dir: string, name: string): string {
    if dir == "" then name else dir + [Separator] + name
  }

  /** filepath.IsAbs on Windows: a drive letter, a colon and a separator, or a UNC `\\` prefix. */
  predicate IsAbs(p: string)
    ensures (forall k :: 0 <= k < |p| ==> !IsSeparator(p[k])) ==> !IsAbs(p)
  {
    || (|p| >= 3 && p[1] == ':' && IsSeparator(p[2]))
    || (|p| >= 2 && IsSeparator(p[0]) && IsSeparator(p[1]))
  }

  /** Drops trailing separators. */
  function TrimSeparators(s: string): (r: string)
    ensures |r| <= |s| && r == s[..|r|]
    ensures forall k :: |r| <= k < |s| ==> IsSeparator(s[k])
    ensures r == [] || !IsSeparator(r[|r| - 1])
  {
    if |s| > 0 && IsSeparator(s[|s| - 1]) then TrimSeparators(s[..|s| - 1]) else s
  }

  /** The longest suffix of `s` free of separators. */
  function TrailingSegment(s: string): (t: string)
    ensures |t| <= |s| && t == s[|s| - |t|..]
    ensures forall k :: 0 <= k < |t| ==> !IsSeparator(t[k])
    ensures |t| < |s| ==> IsSeparator(s[|s| - |t| - 1])
  {
    if s == [] || IsSeparator(s[|s| - 1]) then []
    else
      var t := TrailingSegment(s[..|s| - 1]);
      assert s[..|s| - 1][|s| - 1 - |t|..] + [s[|s| - 1]] == s[|s| - |t| - 1..];
      t + [s[|s| - 1]]
  }

  /**
   * filepath.Base: "." for the empty path, a single separator for a path made
   * only of separators, otherwise the last element once trailing separators
   * are dropped. The volume name is not stripped.
   */
  function Base(p: string): (b: string)
    ensures b != ""
    ensures p == "" ==> b == "."
    ensures p != "" && (forall k :: 0 <= k < |p| ==> IsSeparator(p[k])) ==> b == [Separator]
    ensures (exists k :: 0 <= k < |p| && !IsSeparator(p[k])) ==>
      var t := TrimSeparators(p);
      && t != ""
      && |b| <= |t| && b == t[|t| - |b|..]
      && (forall k :: 0 <= k < |b| ==> !IsSeparator(b[k]))
      && (|b| < |t| ==> IsSeparator(t[|t| - |b| - 1]))
  {
    if p == "" then "."
    else
      var t := TrimSeparators(p);
      if t == "" then [Separator] else TrailingSegment(t)
  }

  /** A separator at `i` bounds the trailing segment to what follows it. */
  lemma {:induction false} TrailingSegmentAfter(s: string, i: nat)
    requires i < |s| && IsSeparator(s[i])
    ensures |TrailingSegment(s)| <= |s| - i - 1
  {
    if !IsSeparator(s[|s| - 1]) {
      TrailingSegmentAfter(s[..|s| - 1], i);
    }
  }

  /** A separator-free tail of length `n` is part of the trailing segment. */
  lemma {:induction false} TrailingSegmentCovers(s: string, n: nat)
    requires n <= |s| && forall k :: |s| - n <= k < |s| ==> !IsSeparator(s[k])
    ensures |TrailingSegment(s)| >= n
  {
    if n > 0 {
      TrailingSegmentCovers(s[..|s| - 1], n - 1);
    }
  }

  /** The last element of a joined path is the name that was joined. */
  lemma BaseOfJoin(dir: string, name: string)
    requires name != [] && forall k :: 0 <= k < |name| ==> !IsSeparator(name[k])
    ensures Base(PathJoin(dir, name)) == name
  {
    var p := PathJoin(dir, name);
    assert p[|p| - |name|..] == name;
    assert TrimSeparators(p) == p;
    forall k | |p| - |name| <= k < |p| ensures !IsSeparator(p[k]) {
      assert p[k] == name[k - (|p| - |name|)];
    }
    TrailingSegmentCovers(p, |name|);
    if dir != "" {
      TrailingSegmentAfter(p, |dir|);
    }
  }
}
