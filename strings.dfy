/**
 * The parts of Go's `strings` and `path/filepath` packages that the
 * reconciler relies on, over Dafny strings (sequences of Unicode scalar
 * values; comparing them compares code points, which is the order Go's
 * byte-wise comparison of UTF-8 gives).
 */
module Strings {

  predicate HasPrefix(s: string, prefix: string) {
    |prefix| <= |s| && s[..|prefix|] == prefix
  }

  predicate HasSuffix(s: string, suffix: string) {
    |suffix| <= |s| && s[|s| - |suffix|..] == suffix
  }

  /** `sub` occurs in `s` starting at index `i`. */
  predicate OccursAt(s: string, sub: string, i: int) {
    0 <= i && i + |sub| <= |s| && s[i..i + |sub|] == sub
  }

  /** strings.Contains: `sub` occurs somewhere in `s`. */
  predicate Contains(s: string, sub: string) {
    exists i | 0 <= i <= |s| - |sub| :: OccursAt(s, sub, i)
  }

  /** unicode.IsSpace, which strings.TrimSpace uses. */
  predicate IsSpace(c: char) {
    var n := c as int;
    n == 0x09 || n == 0x0A || n == 0x0B || n == 0x0C || n == 0x0D || n == 0x20
    || n == 0x85 || n == 0xA0 || n == 0x1680 || (0x2000 <= n <= 0x200A)
    || n == 0x2028 || n == 0x2029 || n == 0x202F || n == 0x205F || n == 0x3000
  }

  function TrimLeftSpace(s: string): (r: string)
    ensures |r| <= |s| && r == s[|s| - |r|..]
    ensures |r| > 0 ==> !IsSpace(r[0])
  {
    if |s| > 0 && IsSpace(s[0]) then TrimLeftSpace(s[1..]) else s
  }

  function TrimRightSpace(s: string): (r: string)
    ensures |r| <= |s| && r == s[..|r|]
    ensures |r| > 0 ==> !IsSpace(r[|r| - 1])
  {
    if |s| > 0 && IsSpace(s[|s| - 1]) then TrimRightSpace(s[..|s| - 1]) else s
  }

  /** strings.TrimSpace. */
  function TrimSpace(s: string): (r: string)
    ensures |r| <= |s|
    ensures |r| > 0 ==> !IsSpace(r[0]) && !IsSpace(r[|r| - 1])
  {
    TrimRightSpace(TrimLeftSpace(s))
  }

  /** A string that neither starts nor ends with white space is its own TrimSpace. */
  lemma TrimSpaceOfTrimmed(s: string)
    requires |s| > 0 ==> !IsSpace(s[0]) && !IsSpace(s[|s| - 1])
    ensures TrimSpace(s) == s
  {
  }

  /** strings.Split with a one-character separator. */
  function Split(s: string, sep: char): (r: seq<string>)
    ensures |r| >= 1
    decreases |s|
  {
    if |s| == 0 then [""]
    else
      var rest := Split(s[1..], sep);
      if s[0] == sep then [""] + rest
      else [[s[0]] + rest[0]] + rest[1..]
  }

  /** strings.Join. */
  function Join(parts: seq<string>, sep: string): string {
    if |parts| == 0 then ""
    else if |parts| == 1 then parts[0]
    else parts[0] + sep + Join(parts[1..], sep)
  }

  /** Joining one more part appends the separator and the part. */
  lemma {:induction false} JoinAppend(parts: seq<string>, x: string, sep: string)
    requires |parts| >= 1
    ensures Join(parts + [x], sep) == Join(parts, sep) + sep + x
    decreases |parts|
  {
    if |parts| == 1 {
      assert (parts + [x])[1..] == [x];
    } else {
      assert (parts + [x])[1..] == parts[1..] + [x];
      JoinAppend(parts[1..], x, sep);
    }
  }

  /** Joining the pieces of a split with the separator gives the string back. */
  lemma {:induction false} JoinSplit(s: string, sep: char)
    ensures Join(Split(s, sep), [sep]) == s
    decreases |s|
  {
    if |s| > 0 {
      var rest := Split(s[1..], sep);
      JoinSplit(s[1..], sep);
      assert Join(rest, [sep]) == s[1..];
      assert s == [s[0]] + s[1..];
      if s[0] == sep {
        var parts := [""] + rest;
        assert Split(s, sep) == parts;
        assert parts[1..] == rest;
        assert Join(parts, [sep]) == "" + [sep] + Join(rest, [sep]);
      } else if |rest| > 1 {
        var first := [s[0]] + rest[0];
        var parts := [first] + rest[1..];
        assert Split(s, sep) == parts;
        assert parts[1..] == rest[1..];
        var tail := Join(rest[1..], [sep]);
        assert Join(rest, [sep]) == rest[0] + [sep] + tail;
        assert Join(parts, [sep]) == first + [sep] + tail;
        assert first + [sep] + tail == [s[0]] + (rest[0] + [sep] + tail);
      } else {
        assert Split(s, sep) == [[s[0]] + rest[0]];
        assert Join(rest, [sep]) == rest[0];
      }
    }
  }

  lemma {:induction false} SplitWithoutSeparator(s: string, sep: char)
    requires sep !in s
    ensures Split(s, sep) == [s]
    decreases |s|
  {
    if |s| > 0 {
      assert sep !in s[1..];
      SplitWithoutSeparator(s[1..], sep);
      assert [s[0]] + s[1..] == s;
    }
  }

  lemma {:induction false} SplitAfterPiece(piece: string, sep: char, rest: string)
    requires sep !in piece
    ensures Split(piece + [sep] + rest, sep) == [piece] + Split(rest, sep)
    decreases |piece|
  {
    var s := piece + [sep] + rest;
    if |piece| == 0 {
      assert s[0] == sep && s[1..] == rest;
    } else {
      assert s[0] == piece[0] && s[1..] == piece[1..] + [sep] + rest;
      SplitAfterPiece(piece[1..], sep, rest);
      assert [piece[0]] + piece[1..] == piece;
    }
  }

  /** Splitting a join of separator-free pieces gives the pieces back. */
  lemma {:induction false} SplitJoin(parts: seq<string>, sep: char)
    requires |parts| >= 1
    requires forall i | 0 <= i < |parts| :: sep !in parts[i]
    ensures Split(Join(parts, [sep]), sep) == parts
    decreases |parts|
  {
    if |parts| == 1 {
      SplitWithoutSeparator(parts[0], sep);
    } else {
      SplitJoin(parts[1..], sep);
      SplitAfterPiece(parts[0], sep, Join(parts[1..], [sep]));
      assert [parts[0]] + parts[1..] == parts;
    }
  }

  /**
   * strings.ReplaceAll for a non-empty pattern: occurrences are found
   * scanning left to right and do not overlap.
   */
  function ReplaceAll(s: string, pattern: string, replacement: string): string
    requires |pattern| > 0
    decreases |s|
  {
    if |s| < |pattern| then s
    else if s[..|pattern|] == pattern then replacement + ReplaceAll(s[|pattern|..], pattern, replacement)
    else [s[0]] + ReplaceAll(s[1..], pattern, replacement)
  }

  /** The number of occurrences ReplaceAll replaces. */
  function Count(s: string, pattern: string): nat
    requires |pattern| > 0
    decreases |s|
  {
    if |s| < |pattern| then 0
    else if s[..|pattern|] == pattern then 1 + Count(s[|pattern|..], pattern)
    else Count(s[1..], pattern)
  }

  /**
   * The scan replaces the first occurrence and carries on after it: when
   * no occurrence starts inside `a`, the text before the pattern is kept
   * and only `b` is searched further.
   */
  lemma {:induction false} ReplaceAllFirst(a: string, b: string, pattern: string, replacement: string)
    requires |pattern| > 0
    requires forall i | 0 <= i < |a| :: !OccursAt(a + pattern + b, pattern, i)
    ensures ReplaceAll(a + pattern + b, pattern, replacement) == a + replacement + ReplaceAll(b, pattern, replacement)
    decreases |a|
  {
    var s := a + pattern + b;
    if a == [] {
      assert s == pattern + b && s[..|pattern|] == pattern && s[|pattern|..] == b;
    } else {
      assert !OccursAt(s, pattern, 0);
      assert s[1..] == a[1..] + pattern + b;
      forall i | 0 <= i < |a| - 1 ensures !OccursAt(a[1..] + pattern + b, pattern, i) {
        assert !OccursAt(s, pattern, i + 1);
        if i + 1 + |pattern| <= |s| {
          assert s[1..][i..i + |pattern|] == s[i + 1..i + 1 + |pattern|];
        }
      }
      ReplaceAllFirst(a[1..], b, pattern, replacement);
      assert [s[0]] + (a[1..] + replacement + ReplaceAll(b, pattern, replacement)) == a + replacement + ReplaceAll(b, pattern, replacement);
    }
  }

  /** Each replaced occurrence changes the length by |replacement| - |pattern|. */
  lemma {:induction false} ReplaceAllLength(s: string, pattern: string, replacement: string)
    requires |pattern| > 0
    ensures |ReplaceAll(s, pattern, replacement)| == |s| + Count(s, pattern) * (|replacement| - |pattern|)
    decreases |s|
  {
    var d := |replacement| - |pattern|;
    if |s| < |pattern| {
    } else if s[..|pattern|] == pattern {
      var tail := s[|pattern|..];
      ReplaceAllLength(tail, pattern, replacement);
      var k := Count(tail, pattern);
      assert Count(s, pattern) == 1 + k;
      assert |ReplaceAll(s, pattern, replacement)| == |replacement| + |ReplaceAll(tail, pattern, replacement)|;
      assert |ReplaceAll(tail, pattern, replacement)| == |tail| + k * d;
      OneMoreTimes(k, d);
    } else {
      ReplaceAllLength(s[1..], pattern, replacement);
      assert Count(s, pattern) == Count(s[1..], pattern);
    }
  }

  lemma OneMoreTimes(k: int, d: int)
    ensures (1 + k) * d == d + k * d
  {
  }

  lemma ContainsInTail(s: string, pattern: string)
    requires |s| > 0 && Contains(s[1..], pattern)
    ensures Contains(s, pattern)
  {
    var i :| 0 <= i <= |s[1..]| - |pattern| && OccursAt(s[1..], pattern, i);
    assert s[i + 1..i + 1 + |pattern|] == s[1..][i..i + |pattern|];
    assert OccursAt(s, pattern, i + 1);
  }

  lemma ContainsAfterPrefix(s: string, pattern: string)
    requires |pattern| <= |s| && Contains(s[|pattern|..], pattern)
    ensures Contains(s, pattern)
  {
    var t := s[|pattern|..];
    var i :| 0 <= i <= |t| - |pattern| && OccursAt(t, pattern, i);
    assert s[i + |pattern|..i + |pattern| + |pattern|] == t[i..i + |pattern|];
    assert OccursAt(s, pattern, i + |pattern|);
  }

  lemma NotContainsHead(s: string, pattern: string)
    requires |pattern| <= |s| && !Contains(s, pattern)
    ensures s[..|pattern|] != pattern
  {
    if s[..|pattern|] == pattern {
      assert OccursAt(s, pattern, 0);
    }
  }

  /** A template without the pattern comes back verbatim. */
  lemma {:induction false} ReplaceAllAbsent(s: string, pattern: string, replacement: string)
    requires |pattern| > 0 && !Contains(s, pattern)
    ensures ReplaceAll(s, pattern, replacement) == s
    decreases |s|
  {
    if |s| >= |pattern| {
      NotContainsHead(s, pattern);
      if Contains(s[1..], pattern) {
        ContainsInTail(s, pattern);
      }
      ReplaceAllAbsent(s[1..], pattern, replacement);
      assert [s[0]] + s[1..] == s;
    }
  }

  /** An occurrence that is not at the head is an occurrence in the tail. */
  lemma ContainsNotAtHead(s: string, pattern: string)
    requires |pattern| <= |s| && s[..|pattern|] != pattern && Contains(s, pattern)
    ensures Contains(s[1..], pattern)
  {
    var i :| 0 <= i <= |s| - |pattern| && OccursAt(s, pattern, i);
    assert i != 0;
    assert s[1..][i - 1..i - 1 + |pattern|] == s[i..i + |pattern|];
    assert OccursAt(s[1..], pattern, i - 1);
  }

  /** ReplaceAll replaces nothing exactly when the pattern does not occur. */
  lemma {:induction false} CountZeroIffAbsent(s: string, pattern: string)
    requires |pattern| > 0
    ensures Count(s, pattern) == 0 <==> !Contains(s, pattern)
    decreases |s|
  {
    if |s| < |pattern| {
    } else if s[..|pattern|] == pattern {
      assert OccursAt(s, pattern, 0);
    } else {
      CountZeroIffAbsent(s[1..], pattern);
      if Contains(s[1..], pattern) {
        ContainsInTail(s, pattern);
      }
      if Contains(s, pattern) {
        ContainsNotAtHead(s, pattern);
      }
    }
  }

  /**
   * filepath.Ext of a path: the suffix from the last '.' of its final
   * element, or "" when that element has no dot.
   */
  function Ext(path: string): (e: string)
    ensures e == "" || (e[0] == '.' && HasSuffix(path, e) && '.' !in e[1..] && '/' !in e)
    decreases |path|
  {
    if |path| == 0 || path[|path| - 1] == '/' then ""
    else if path[|path| - 1] == '.' then "."
    else
      var e := Ext(path[..|path| - 1]);
      if e == "" then "" else e + [path[|path| - 1]]
  }

  /** The extension is ".tgz" exactly when the path ends in ".tgz". */
  lemma ExtIsTgzIff(path: string)
    ensures Ext(path) == ".tgz" <==> HasSuffix(path, ".tgz")
  {
    if HasSuffix(path, ".tgz") {
      var n := |path|;
      assert path[n - 4..] == ".tgz";
      assert path[n - 1] == 'z' && path[n - 2] == 'g' && path[n - 3] == 't' && path[n - 4] == '.';
      var p1 := path[..n - 1];
      var p2 := p1[..n - 2];
      var p3 := p2[..n - 3];
      assert p3[n - 4] == '.';
      assert Ext(p3) == ".";
      assert Ext(p2) == ".t";
      assert Ext(p1) == ".tg";
    }
  }

  /** Byte-wise (code point) lexicographic order, as Go compares strings. */
  predicate StrLt(a: string, b: string)
    decreases |a|
  {
    if |a| == 0 then |b| > 0
    else if |b| == 0 then false
    else a[0] < b[0] || (a[0] == b[0] && StrLt(a[1..], b[1..]))
  }

  lemma StrLtIrreflexive(a: string)
    ensures !StrLt(a, a)
  {
  }

  lemma StrLtTransitive(a: string, b: string, c: string)
    requires StrLt(a, b) && StrLt(b, c)
    ensures StrLt(a, c)
  {
  }

  lemma {:induction false} StrLtTotal(a: string, b: string)
    ensures a == b || StrLt(a, b) || StrLt(b, a)
    decreases |a|
  {
    if |a| > 0 && |b| > 0 && a[0] == b[0] {
      StrLtTotal(a[1..], b[1..]);
      if a[1..] == b[1..] {
        assert a == [a[0]] + a[1..] && b == [b[0]] + b[1..];
      }
    }
  }

  lemma StrLtAsymmetric(a: string, b: string)
    requires StrLt(a, b)
    ensures !StrLt(b, a)
  {
  }

  predicate StrictlySorted(r: seq<string>) {
    forall i, j | 0 <= i < j < |r| :: StrLt(r[i], r[j])
  }

  predicate IsLeast(m: string, s: set<string>) {
    m in s && forall x | x in s :: x == m || StrLt(m, x)
  }

  lemma {:induction false} LeastExists(s: set<string>)
    requires s != {}
    ensures exists m :: IsLeast(m, s)
    decreases |s|
  {
    var x :| x in s;
    if s != {x} {
      LeastExists(s - {x});
      var m :| IsLeast(m, s - {x});
      StrLtTotal(x, m);
      if StrLt(x, m) {
        forall y | y in s ensures y == x || StrLt(x, y) {
          if y != x && y != m {
            StrLtTransitive(x, m, y);
          }
        }
        assert IsLeast(x, s);
      } else {
        assert IsLeast(m, s);
      }
    } else {
      assert IsLeast(x, s);
    }
  }

  /** The elements of a finite set of strings in increasing order. */
  ghost function SortedStrings(s: set<string>): (r: seq<string>)
    ensures StrictlySorted(r) && |r| == |s|
    ensures forall x :: x in r <==> x in s
    decreases |s|
  {
    if s == {} then []
    else
      LeastExists(s);
      var m :| IsLeast(m, s);
      var rest := SortedStrings(s - {m});
      assert forall j | 0 <= j < |rest| :: rest[j] in rest && rest[j] in s - {m} && StrLt(m, rest[j]);
      [m] + rest
  }

  /** A strictly sorted sequence is determined by its elements. */
  lemma {:induction false} SortedUnique(a: seq<string>, b: seq<string>)
    requires StrictlySorted(a) && StrictlySorted(b)
    requires forall x :: x in a <==> x in b
    ensures a == b
    decreases |a|
  {
    SameElementsBothEmpty(a, b);
    if |a| > 0 {
      assert a[0] in b;
      assert b[0] in a;
      if a[0] != b[0] {
        var i :| 0 <= i < |b| && b[i] == a[0];
        var j :| 0 <= j < |a| && a[j] == b[0];
        assert StrLt(b[0], a[0]);
        assert StrLt(a[0], b[0]);
        StrLtAsymmetric(a[0], b[0]);
      }
      forall x | x in a[1..] ensures x in b[1..] {
        var k :| 0 <= k < |a[1..]| && a[1..][k] == x;
        assert a[k + 1] == x && StrLt(a[0], a[k + 1]);
        if x == b[0] { StrLtIrreflexive(x); }
        assert x in b;
        var k' :| 0 <= k' < |b| && b[k'] == x;
        assert k' != 0;
        assert b[1..][k' - 1] == x;
      }
      forall x | x in b[1..] ensures x in a[1..] {
        var k :| 0 <= k < |b[1..]| && b[1..][k] == x;
        assert b[k + 1] == x && StrLt(b[0], b[k + 1]);
        if x == a[0] { StrLtIrreflexive(x); }
        assert x in a;
        var k' :| 0 <= k' < |a| && a[k'] == x;
        assert k' != 0;
        assert a[1..][k' - 1] == x;
      }
      SortedUnique(a[1..], b[1..]);
      assert a == [a[0]] + a[1..] && b == [b[0]] + b[1..];
    }
  }

  lemma SameElementsBothEmpty(a: seq<string>, b: seq<string>)
    requires forall x :: x in a <==> x in b
    ensures |a| == 0 <==> |b| == 0
  {
    if |a| > 0 {
      assert a[0] in b;
    }
    if |b| > 0 {
      assert b[0] in a;
    }
  }
}
