/**
 * The parts of Go's `strings`, `unicode` and `sort` packages that the service
 * relies on, over Dafny strings (sequences of Unicode scalar values, which
 * compare in the same order as Go compares their UTF-8 encodings).
 */
module Text {

  // ---------------------------------------------------------------------------
  // Whitespace and trimming (strings.TrimSpace, strings.TrimRight)
  // ---------------------------------------------------------------------------

  /** unicode.IsSpace: the ASCII spaces plus the Unicode White_Space runes. */
  predicate IsSpace(c: char) {
    || c == ' ' || ('\t' <= c <= '\r')
    || c == '\U{85}' || c == '\U{A0}' || c == '\U{1680}'
    || ('\U{2000}' <= c <= '\U{200A}')
    || c == '\U{2028}' || c == '\U{2029}' || c == '\U{202F}' || c == '\U{205F}'
    || c == '\U{3000}'
  }

  /** Drops leading whitespace: the result is a suffix and only spaces went. */
  function TrimLeftSpace(s: string): (r: string)
    ensures |r| <= |s| && r == s[|s| - |r|..]
    ensures forall k :: 0 <= k < |s| - |r| ==> IsSpace(s[k])
    ensures r == [] || !IsSpace(r[0])
  {
    if |s| > 0 && IsSpace(s[0]) then TrimLeftSpace(s[1..]) else s
  }

  /** Drops trailing whitespace: the result is a prefix and only spaces went. */
  function TrimRightSpace(s: string): (r: string)
    ensures |r| <= |s| && r == s[..|r|]
    ensures forall k :: |r| <= k < |s| ==> IsSpace(s[k])
    ensures r == [] || !IsSpace(r[|r| - 1])
  {
    if |s| > 0 && IsSpace(s[|s| - 1]) then TrimRightSpace(s[..|s| - 1]) else s
  }

  /** strings.TrimSpace */
  function TrimSpace(s: string): string {
    TrimRightSpace(TrimLeftSpace(s))
  }

  /** A string that neither starts nor ends with whitespace is its own trim. */
  lemma TrimSpaceOfTrimmed(s: string)
    requires s == [] || (!IsSpace(s[0]) && !IsSpace(s[|s| - 1]))
    ensures TrimSpace(s) == s
  {
  }

  /** The result of TrimSpace has no whitespace at either end, so trimming twice changes nothing. */
  lemma TrimSpaceIdempotent(s: string)
    ensures var t := TrimSpace(s); t == [] || (!IsSpace(t[0]) && !IsSpace(t[|t| - 1]))
    ensures TrimSpace(TrimSpace(s)) == TrimSpace(s)
  {
    var l := TrimLeftSpace(s);
    var t := TrimRightSpace(l);
    if t != [] {
      assert t[0] == l[0];
    }
    TrimSpaceOfTrimmed(t);
  }

  /** strings.TrimRight(s, string(c)) for a single cut character. */
  function TrimRightChar(s: string, c: char): (r: string)
    ensures |r| <= |s| && r == s[..|r|]
    ensures forall k :: |r| <= k < |s| ==> s[k] == c
    ensures r == [] || r[|r| - 1] != c
  {
    if |s| > 0 && s[|s| - 1] == c then TrimRightChar(s[..|s| - 1], c) else s
  }

  // ---------------------------------------------------------------------------
  // Case folding (strings.ToLower)
  // ---------------------------------------------------------------------------

  /**
   * unicode.ToLower restricted to the runes whose lower case is ASCII: A-Z,
   * U+0130 (capital I with dot, lowers to 'i') and U+212A (Kelvin sign,
   * lowers to 'k'). Every other rune is left as it is.
   */
  function LowerChar(c: char): char {
    if 'A' <= c <= 'Z' then (c as int + 32) as char
    else if c == '\U{130}' then 'i'
    else if c == '\U{212A}' then 'k'
    else c
  }

  function ToLower(s: string): (r: string)
    ensures |r| == |s|
    ensures forall k :: 0 <= k < |s| ==> r[k] == LowerChar(s[k])
  {
    if s == [] then [] else [LowerChar(s[0])] + ToLower(s[1..])
  }

  /** strings.HasPrefix */
  predicate HasPrefix(s: string, prefix: string) {
    prefix <= s
  }

  /** strings.HasSuffix */
  predicate HasSuffix(s: string, suffix: string) {
    |suffix| <= |s| && s[|s| - |suffix|..] == suffix
  }

  // ---------------------------------------------------------------------------
  // strings.Split and its inverse
  // ---------------------------------------------------------------------------

  function IndexOf(s: string, c: char): (i: nat)
    requires c in s
    ensures i < |s| && s[i] == c && c !in s[..i]
  {
    if s[0] == c then 0 else 1 + IndexOf(s[1..], c)
  }

  /**
   * strings.Split(s, string(sep)): the pieces between separators, so n
   * separators give n + 1 pieces and the empty string gives [""].
   */
  function Split(s: string, sep: char): (parts: seq<string>)
    ensures |parts| >= 1
    ensures forall k :: 0 <= k < |parts| ==> sep !in parts[k]
    decreases |s|
  {
    if sep in s then
      var i := IndexOf(s, sep);
      [s[..i]] + Split(s[i + 1..], sep)
    else [s]
  }

  /** strings.Join(parts, string(sep)) */
  function Join(parts: seq<string>, sep: char): string
    requires |parts| >= 1
  {
    if |parts| == 1 then parts[0] else parts[0] + [sep] + Join(parts[1..], sep)
  }

  /** The first separator of `a + [sep] + rest` is the one after `a` when `a` has none. */
  lemma IndexOfFirstSeparator(a: string, sep: char, rest: string)
    requires sep !in a
    ensures sep in a + [sep] + rest && IndexOf(a + [sep] + rest, sep) == |a|
  {
    var s := a + [sep] + rest;
    assert s[..|a|] == a;
    assert s[|a|] == sep;
    forall j | |a| < j <= |s| ensures sep in s[..j] {
      assert s[..j][|a|] == sep;
    }
  }

  /** Splitting a joined list gives the list back when no piece holds the separator. */
  lemma {:induction false} SplitJoin(parts: seq<string>, sep: char)
    requires |parts| >= 1
    requires forall k :: 0 <= k < |parts| ==> sep !in parts[k]
    ensures Split(Join(parts, sep), sep) == parts
  {
    if |parts| == 1 {
    } else {
      var a := parts[0];
      var rest := Join(parts[1..], sep);
      var s := a + [sep] + rest;
      assert sep !in a;
      assert sep in s by { assert s[|a|] == sep; }
      IndexOfFirstSeparator(a, sep, rest);
      var i := IndexOf(s, sep);
      assert s[..i] == a;
      assert s[i + 1..] == rest;
      SplitJoin(parts[1..], sep);
    }
  }

  /** The last piece of a split is the longest separator-free suffix. */
  lemma {:induction false} SplitLast(s: string, sep: char)
    ensures var parts := Split(s, sep); var t := parts[|parts| - 1];
      && |t| <= |s| && t == s[|s| - |t|..]
      && (|t| < |s| ==> s[|s| - |t| - 1] == sep)
    decreases |s|
  {
    if sep in s {
      var i := IndexOf(s, sep);
      SplitLast(s[i + 1..], sep);
    }
  }

  /**
   * A separator-free suffix of length n that is either the whole string or
   * preceded by the separator is exactly the last piece of the split.
   */
  lemma {:induction false} SplitLastSegment(s: string, sep: char, n: nat)
    requires n <= |s| && sep !in s[|s| - n..]
    requires n < |s| ==> s[|s| - n - 1] == sep
    ensures var parts := Split(s, sep); parts[|parts| - 1] == s[|s| - n..]
    decreases |s|
  {
    if n == |s| {
      assert s[|s| - n..] == s;
    } else {
      assert s[|s| - n - 1] == sep;
      var i := IndexOf(s, sep);
      assert i <= |s| - n - 1 by {
        assert s[|s| - n - 1] !in s[..i] || |s| - n - 1 >= i;
      }
      var rest := s[i + 1..];
      assert rest[|rest| - n..] == s[|s| - n..];
      SplitLastSegment(rest, sep, n);
    }
  }

  // ---------------------------------------------------------------------------
  // String order and sorting (Go's `<` on strings, sort.Strings)
  // ---------------------------------------------------------------------------

  /** Lexicographic strict order, as Go's `<` on strings. */
  predicate Less(a: string, b: string)
    decreases |a|
  {
    |b| > 0 && (|a| == 0 || a[0] < b[0] || (a[0] == b[0] && Less(a[1..], b[1..])))
  }

  lemma {:induction false} LessIrreflexive(a: string)
    ensures !Less(a, a)
    decreases |a|
  {
    if |a| > 0 { LessIrreflexive(a[1..]); }
  }

  lemma {:induction false} LessTransitive(a: string, b: string, c: string)
    requires Less(a, b) && Less(b, c)
    ensures Less(a, c)
    decreases |a|
  {
    if |a| > 0 && a[0] == b[0] && b[0] == c[0] {
      LessTransitive(a[1..], b[1..], c[1..]);
    }
  }

  lemma {:induction false} LessTotal(a: string, b: string)
    ensures a == b || Less(a, b) || Less(b, a)
    decreases |a|
  {
    if |a| > 0 && |b| > 0 && a[0] == b[0] {
      LessTotal(a[1..], b[1..]);
      if a[1..] == b[1..] {
        assert a == [a[0]] + a[1..] && b == [b[0]] + b[1..];
      }
    }
  }

  /** "Not greater" is transitive, which is what sortedness needs. */
  lemma NotLessTransitive(a: string, b: string, c: string)
    requires !Less(b, a) && !Less(c, b)
    ensures !Less(c, a)
  {
    LessTotal(a, b);
    if Less(c, a) && a != b {
      LessTransitive(c, a, b);
    }
  }

  predicate Sorted(s: seq<string>) {
    forall i, j :: 0 <= i < j < |s| ==> !Less(s[j], s[i])
  }

  function Insert(x: string, s: seq<string>): seq<string> {
    if s == [] then [x]
    else if Less(s[0], x) then [s[0]] + Insert(x, s[1..])
    else [x] + s
  }

  /** Insertion sort: the order sort.Strings and sort.Slice by name produce. */
  function Sort(s: seq<string>): seq<string> {
    if s == [] then [] else Insert(s[0], Sort(s[1..]))
  }

  lemma {:induction false} InsertPermutes(x: string, s: seq<string>)
    ensures multiset(Insert(x, s)) == multiset(s) + multiset{x}
  {
    if s != [] && Less(s[0], x) {
      InsertPermutes(x, s[1..]);
      assert s == [s[0]] + s[1..];
    }
  }

  lemma {:induction false} InsertSorted(x: string, s: seq<string>)
    requires Sorted(s)
    ensures Sorted(Insert(x, s))
  {
    if s == [] {
    } else if Less(s[0], x) {
      InsertSorted(x, s[1..]);
      InsertPermutes(x, s[1..]);
      var r := Insert(x, s[1..]);
      forall j | 0 <= j < |r| ensures !Less(r[j], s[0]) {
        assert r[j] in multiset(r);
        if r[j] == x {
          if Less(x, s[0]) { LessTransitive(x, s[0], x); LessIrreflexive(x); }
        } else {
          assert r[j] in multiset(s[1..]);
          var k :| 0 <= k < |s[1..]| && s[1..][k] == r[j];
          assert s[k + 1] == r[j];
        }
      }
    } else {
      forall j | 0 <= j < |s| ensures !Less(s[j], x) {
        if j > 0 { NotLessTransitive(x, s[0], s[j]); }
      }
    }
  }

  /** Sort returns its input in ascending order ... */
  lemma {:induction false} SortSorted(s: seq<string>)
    ensures Sorted(Sort(s))
  {
    if s != [] {
      SortSorted(s[1..]);
      InsertSorted(s[0], Sort(s[1..]));
    }
  }

  /** ... and loses or adds nothing. */
  lemma {:induction false} SortPermutes(s: seq<string>)
    ensures multiset(Sort(s)) == multiset(s)
  {
    if s != [] {
      SortPermutes(s[1..]);
      InsertPermutes(s[0], Sort(s[1..]));
      assert s == [s[0]] + s[1..];
    }
  }
}
