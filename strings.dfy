/**
 * The handful of Python `str` operations the collection script relies on:
 * `isspace`, `strip()` / `strip(chars)`, `split(sep)` and the substring test
 * `sub in s`. Strings are sequences of characters.
 */
module Strings {

  /** Python's `str.isspace()` for a single character: the ASCII controls
      \t \n \v \f \r, the separators \x1c-\x1f, the space, and the Unicode
      space characters. */
  predicate IsSpace(c: char) {
    var n := c as int;
    (9 <= n <= 13) || (28 <= n <= 32) || n == 0x85 || n == 0xA0 || n == 0x1680
    || (0x2000 <= n <= 0x200A) || n == 0x2028 || n == 0x2029 || n == 0x202F
    || n == 0x205F || n == 0x3000
  }

  /** Every character of `s` satisfies `p`. */
  predicate All(s: string, p: char -> bool) {
    forall k :: 0 <= k < |s| ==> p(s[k])
  }

  predicate IsPrefix(p: string, s: string) {
    |p| <= |s| && s[..|p|] == p
  }

  predicate IsSuffix(t: string, s: string) {
    |t| <= |s| && s[|s| - |t|..] == t
  }

  /** A text is a prefix of any extension of it. */
  lemma PrefixOfConcat(a: string, b: string)
    ensures IsPrefix(a, a + b)
  {
    assert (a + b)[..|a|] == a;
  }

  /** A text is a suffix of anything it extends. */
  lemma SuffixOfConcat(a: string, b: string)
    ensures IsSuffix(b, a + b)
  {
    assert (a + b)[|a + b| - |b|..] == b;
  }

  /** A prefix of a prefix of `c` is a prefix of `c`. */
  lemma PrefixOfPrefix(a: string, b: string, c: string)
    requires IsPrefix(a, b) && IsPrefix(b, c)
    ensures IsPrefix(a, c)
  {
    assert c[..|a|] == c[..|b|][..|a|];
  }

  /** A character absent from a text is absent from every tail of it. */
  lemma AbsentFromTail(s: string, c: char, i: int)
    requires c !in s && 0 <= i <= |s|
    ensures c !in s[i..]
  {
    assert forall k :: 0 <= k < |s| - i ==> s[i..][k] == s[i + k];
  }

  /** `r` occurs in `s` starting at position `i`. */
  predicate OccursAt(r: string, s: string, i: int) {
    0 <= i <= |s| - |r| && s[i..i + |r|] == r
  }

  /** `r` occurs somewhere in `s` as a contiguous block. */
  ghost predicate IsInfix(r: string, s: string) {
    exists i :: OccursAt(r, s, i)
  }

  /** A block of a block of `t` is a block of `t`. */
  lemma InfixOfInfix(r: string, s: string, t: string)
    requires IsInfix(r, s) && IsInfix(s, t)
    ensures IsInfix(r, t)
  {
    var i :| OccursAt(r, s, i);
    var j :| OccursAt(s, t, j);
    forall k | 0 <= k < |r| ensures t[j + i + k] == r[k] {
      assert r[k] == s[i + k] == t[j..j + |s|][i + k];
    }
    assert t[j + i..j + i + |r|] == r;
    assert OccursAt(r, t, j + i);
  }

  /** `s.lstrip(chars)`: drops the longest prefix whose characters satisfy `drop`. */
  function LStrip(s: string, drop: char -> bool): string {
    if s != [] && drop(s[0]) then LStrip(s[1..], drop) else s
  }

  /** What `LStrip` leaves is a tail of the text that does not start with
      a dropped character, and everything cut off before it is dropped. */
  lemma {:induction false} LStripShape(s: string, drop: char -> bool)
    ensures var r := LStrip(s, drop);
            && |r| <= |s| && r == s[|s| - |r|..]
            && All(s[..|s| - |r|], drop)
            && (r != [] ==> !drop(r[0]))
  {
    if s != [] && drop(s[0]) {
      LStripShape(s[1..], drop);
      var r := LStrip(s[1..], drop);
      var cut := s[..|s| - |r|];
      assert forall k :: 1 <= k < |cut| ==> cut[k] == s[1..][..|s| - 1 - |r|][k - 1];
    }
  }

  /** `s.rstrip(chars)`: drops the longest suffix whose characters satisfy `drop`. */
  function RStrip(s: string, drop: char -> bool): string {
    if s != [] && drop(s[|s| - 1]) then RStrip(s[..|s| - 1], drop) else s
  }

  /** What `RStrip` leaves is a head of the text that does not end with a
      dropped character, and everything cut off after it is dropped. */
  lemma {:induction false} RStripShape(s: string, drop: char -> bool)
    ensures var r := RStrip(s, drop);
            && |r| <= |s| && r == s[..|r|]
            && All(s[|r|..], drop)
            && (r != [] ==> !drop(r[|r| - 1]))
  {
    if s != [] && drop(s[|s| - 1]) {
      var init := s[..|s| - 1];
      RStripShape(init, drop);
      var r := RStrip(init, drop);
      assert s[..|r|] == init[..|r|];
      var cut := s[|r|..];
      assert forall k :: 0 <= k < |cut| - 1 ==> cut[k] == init[|r|..][k];
    }
  }

  /** `s.strip(chars)`: both ends at once. */
  function Strip(s: string, drop: char -> bool): string {
    RStrip(LStrip(s, drop), drop)
  }

  /** `r` is `s` with a head and a tail cut off, every character of
      which satisfies `drop`. */
  ghost predicate TrimmedFrom(r: string, s: string, drop: char -> bool) {
    exists i :: OccursAt(r, s, i) && All(s[..i], drop) && All(s[i + |r|..], drop)
  }

  /** `s.strip(chars)` removes only dropped characters, and only from the
      two ends: it leaves a block of `s` that neither starts nor ends with
      a dropped character, and it is empty exactly when every character of
      `s` is dropped. */
  lemma StripShape(s: string, drop: char -> bool)
    ensures var r := Strip(s, drop);
            && IsInfix(r, s)
            && TrimmedFrom(r, s, drop)
            && (r != [] ==> !drop(r[0]) && !drop(r[|r| - 1]))
            && (r == [] <==> All(s, drop))
  {
    var l := LStrip(s, drop);
    var r := RStrip(l, drop);
    LStripShape(s, drop);
    RStripShape(l, drop);
    var i := |s| - |l|;
    assert s[i..][..|r|] == s[i..i + |r|];
    assert OccursAt(r, s, i);
    assert s[i + |r|..] == l[|r|..];
    assert TrimmedFrom(r, s, drop);
    if r != [] {
      assert r[0] == l[0];
    } else if l == [] {
      assert s[..i] == s;
    }
  }

  /** Left-stripping stops inside `x` when `x` has a kept character, so
      whatever follows `x` is untouched. */
  lemma {:induction false} LStripStopsIn(x: string, y: string, drop: char -> bool)
    requires !All(x, drop)
    ensures LStrip(x + y, drop) == LStrip(x, drop) + y
  {
    if drop(x[0]) {
      assert (x + y)[1..] == x[1..] + y;
      LStripStopsIn(x[1..], y, drop);
    }
  }

  /** A prefix made only of dropped characters is stripped away entirely. */
  lemma {:induction false} LStripDropsHead(x: string, y: string, drop: char -> bool)
    requires All(x, drop)
    ensures LStrip(x + y, drop) == LStrip(y, drop)
  {
    if x != [] {
      assert (x + y)[1..] == x[1..] + y;
      LStripDropsHead(x[1..], y, drop);
    } else {
      assert x + y == y;
    }
  }

  /** Right-stripping stops inside `y` when `y` has a kept character. */
  lemma {:induction false} RStripStopsIn(x: string, y: string, drop: char -> bool)
    requires !All(y, drop)
    ensures RStrip(x + y, drop) == x + RStrip(y, drop)
  {
    var n := |y| - 1;
    var xy := x + y;
    assert xy[|xy| - 1] == y[n];
    if drop(y[n]) {
      var k :| 0 <= k < |y| && !drop(y[k]);
      assert k < n && y[..n][k] == y[k];
      assert xy[..|xy| - 1] == x + y[..n];
      RStripStopsIn(x, y[..n], drop);
    }
  }

  /** A tail made only of dropped characters is stripped away entirely. */
  lemma {:induction false} RStripDropsTail(x: string, y: string, drop: char -> bool)
    requires All(y, drop)
    ensures RStrip(x + y, drop) == RStrip(x, drop)
  {
    if y != [] {
      var n := |y| - 1;
      assert (x + y)[..|x + y| - 1] == x + y[..n];
      RStripDropsTail(x, y[..n], drop);
    } else {
      assert x + y == x;
    }
  }

  /** `s.split(sep)` for a one-character separator: the pieces between
      separators, one more piece than there are separators. */
  function Split(s: string, sep: char): (r: seq<string>)
    ensures |r| >= 1
  {
    if s == [] then [""]
    else
      var rest := Split(s[1..], sep);
      if s[0] == sep then [""] + rest
      else [[s[0]] + rest[0]] + rest[1..]
  }

  /** No piece of a split contains the separator. */
  lemma {:induction false} SplitPieces(s: string, sep: char)
    ensures forall k :: 0 <= k < |Split(s, sep)| ==> sep !in Split(s, sep)[k]
  {
    if s != [] {
      SplitPieces(s[1..], sep);
    }
  }

  /** `sep.join(parts)`, the inverse of `Split`. */
  function JoinWith(parts: seq<string>, sep: char): string
    requires |parts| >= 1
  {
    if |parts| == 1 then parts[0] else parts[0] + [sep] + JoinWith(parts[1..], sep)
  }

  /** Joining the pieces of a split gives the original text back. */
  lemma {:induction false} JoinSplit(s: string, sep: char)
    ensures JoinWith(Split(s, sep), sep) == s
  {
    if s != [] {
      var rest := Split(s[1..], sep);
      JoinSplit(s[1..], sep);
      if s[0] != sep {
        if |rest| == 1 {
          assert Split(s, sep) == [[s[0]] + rest[0]];
        } else {
          var r := Split(s, sep);
          assert r[1..] == rest[1..];
          assert JoinWith(r, sep) == [s[0]] + (rest[0] + [sep] + JoinWith(rest[1..], sep));
        }
      }
    }
  }

  /** A split has exactly one piece more than the separator occurs in the text. */
  lemma {:induction false} SplitCount(s: string, sep: char)
    ensures |Split(s, sep)| == multiset(s)[sep] + 1
  {
    if s != [] {
      SplitCount(s[1..], sep);
      assert s == [s[0]] + s[1..];
      assert multiset(s) == multiset{s[0]} + multiset(s[1..]);
    }
  }

  /** Text without the separator is a single piece. */
  lemma {:induction false} SplitNoSep(s: string, sep: char)
    requires sep !in s
    ensures Split(s, sep) == [s]
  {
    if s != [] {
      SplitNoSep(s[1..], sep);
      assert s == [s[0]] + s[1..];
    }
  }

  /** The first piece ends at the first separator. */
  lemma {:induction false} SplitFirst(x: string, sep: char, y: string)
    requires sep !in x
    ensures Split(x + [sep] + y, sep) == [x] + Split(y, sep)
  {
    if x != [] {
      assert (x + [sep] + y)[1..] == x[1..] + [sep] + y;
      SplitFirst(x[1..], sep, y);
      assert x == [x[0]] + x[1..];
    } else {
      assert (x + [sep] + y)[1..] == y;
    }
  }

  /** The first piece of a split is the text up to (not including) the
      first separator, or the whole text when there is none. */
  lemma {:induction false} FirstPiece(s: string, sep: char)
    ensures IsPrefix(Split(s, sep)[0], s)
    ensures var f := Split(s, sep)[0]; f == s || s[|f|] == sep
  {
    if s != [] {
      FirstPiece(s[1..], sep);
    }
  }

  /** Python's `sub in s`, scanning `s` from the left. */
  predicate Contains(s: string, sub: string)
    decreases |s|
  {
    if |s| < |sub| then false
    else s[..|sub|] == sub || Contains(s[1..], sub)
  }

  /** `Contains` holds exactly when `sub` occurs at some position of `s`. */
  lemma {:induction false} ContainsAt(s: string, sub: string)
    ensures Contains(s, sub) <==> IsInfix(sub, s)
    decreases |s|
  {
    // When |s| < |sub| neither side holds.
    if |s| >= |sub| && s[..|sub|] == sub {
      assert OccursAt(sub, s, 0);
    } else if |s| >= |sub| {
      ContainsAt(s[1..], sub);
      if Contains(s[1..], sub) {
        var i :| OccursAt(sub, s[1..], i);
        assert s[i + 1..i + 1 + |sub|] == s[1..][i..i + |sub|];
        assert OccursAt(sub, s, i + 1);
      }
      if IsInfix(sub, s) {
        var i :| OccursAt(sub, s, i);
        assert i != 0;
        assert s[1..][i - 1..i - 1 + |sub|] == s[i..i + |sub|];
        assert OccursAt(sub, s[1..], i - 1);
      }
    }
  }

  /** Every character of an occurring substring is a character of the text. */
  lemma ContainsChars(s: string, sub: string, c: char)
    requires Contains(s, sub) && c in sub
    ensures c in s
  {
    ContainsAt(s, sub);
    var i :| OccursAt(sub, s, i);
    var k :| 0 <= k < |sub| && sub[k] == c;
    assert s[i..i + |sub|][k] == c;
  }
}
