/**
 * The few Python string operations the plugin relies on, over `string`
 * (a sequence of Unicode characters): `str.split(sep)` with a one-character
 * separator, the `in` substring test, `str.strip()`, `str.replace` of one
 * character by another, and lower-casing.
 */
module Text {

  /** `sep.join(parts)`. */
  function Join(parts: seq<string>, sep: char): string
  {
    if |parts| == 0 then []
    else if |parts| == 1 then parts[0]
    else parts[0] + [sep] + Join(parts[1..], sep)
  }

  /** `s.split(sep)`: never empty; the pieces between the separators, in order. */
  function Split(s: string, sep: char): (r: seq<string>)
    ensures |r| >= 1
    decreases |s|
  {
    if s == [] then [[]]
    else if s[0] == sep then [[]] + Split(s[1..], sep)
    else
      var rest := Split(s[1..], sep);
      [[s[0]] + rest[0]] + rest[1..]
  }

  /** A split whose string does not start with the separator extends its first piece. */
  lemma SplitExtends(s: string, sep: char)
    requires s != [] && s[0] != sep
    ensures var rest := Split(s[1..], sep);
      Split(s, sep) == [[s[0]] + rest[0]] + rest[1..]
  {
  }

  /** Joining the pieces of a split gives the string back. */
  lemma {:induction false} SplitJoin(s: string, sep: char)
    ensures Join(Split(s, sep), sep) == s
    decreases |s|
  {
    if s != [] {
      SplitJoin(s[1..], sep);
      var rest := Split(s[1..], sep);
      assert s == [s[0]] + s[1..];
      if s[0] == sep {
        assert Join([[]] + rest, sep) == [] + [sep] + Join(rest, sep);
      } else {
        SplitExtends(s, sep);
        var r := [[s[0]] + rest[0]] + rest[1..];
        if |rest| > 1 {
          assert r[1..] == rest[1..];
          assert Join(rest, sep) == rest[0] + [sep] + Join(rest[1..], sep);
          assert Join(r, sep) == ([s[0]] + rest[0]) + [sep] + Join(rest[1..], sep);
        }
      }
    }
  }

  /** No piece of a split holds the separator. */
  lemma {:induction false} SplitPiecesFree(s: string, sep: char)
    ensures forall k :: 0 <= k < |Split(s, sep)| ==> sep !in Split(s, sep)[k]
    decreases |s|
  {
    if s != [] {
      SplitPiecesFree(s[1..], sep);
      var rest := Split(s[1..], sep);
      if s[0] != sep {
        SplitExtends(s, sep);
        var r := [[s[0]] + rest[0]] + rest[1..];
        forall k | 0 <= k < |r| ensures sep !in r[k] {
          if k == 0 { assert sep !in rest[0]; } else { assert r[k] == rest[k]; }
        }
      }
    }
  }

  /** A string without the separator splits into itself alone. */
  lemma {:induction false} SplitWithoutSeparator(s: string, sep: char)
    requires sep !in s
    ensures Split(s, sep) == [s]
    decreases |s|
  {
    if s != [] {
      assert sep !in s[1..];
      SplitWithoutSeparator(s[1..], sep);
      assert [s[0]] + s[1..] == s;
    }
  }

  /** `s.split(sep)` has a second piece exactly when `sep` occurs in `s`. */
  lemma {:induction false} SplitHasSecond(s: string, sep: char)
    ensures |Split(s, sep)| >= 2 <==> sep in s
    decreases |s|
  {
    if s != [] {
      SplitHasSecond(s[1..], sep);
      assert s == [s[0]] + s[1..];
      assert sep in s <==> s[0] == sep || sep in s[1..];
    }
  }

  /** Splitting `a + sep + b` where `a` holds no separator yields `a` followed by the pieces of `b`. */
  lemma {:induction false} SplitAfterPiece(a: string, sep: char, b: string)
    requires sep !in a
    ensures Split(a + [sep] + b, sep) == [a] + Split(b, sep)
    decreases |a|
  {
    if a == [] {
      assert a + [sep] + b == [sep] + b;
      assert ([sep] + b)[1..] == b;
    } else {
      var s := a + [sep] + b;
      assert s[0] == a[0] && s[1..] == a[1..] + [sep] + b;
      assert sep !in a[1..];
      SplitAfterPiece(a[1..], sep, b);
      assert [a[0]] + a[1..] == a;
    }
  }

  /** Lines joined by the separator split back into those lines, the last one's own pieces included. */
  lemma {:induction false} SplitJoinLines(xs: seq<string>, last: string, sep: char)
    requires forall k :: 0 <= k < |xs| ==> sep !in xs[k]
    ensures Split(Join(xs + [last], sep), sep) == xs + Split(last, sep)
    decreases |xs|
  {
    if xs == [] {
      assert xs + [last] == [last];
    } else {
      var all := xs + [last];
      assert all[0] == xs[0] && all[1..] == xs[1..] + [last];
      SplitJoinLines(xs[1..], last, sep);
      SplitAfterPiece(xs[0], sep, Join(all[1..], sep));
      assert xs == [xs[0]] + xs[1..];
    }
  }

  /** `needle` is a prefix of `hay`. */
  predicate IsPrefix(needle: string, hay: string)
  {
    |needle| <= |hay| && hay[..|needle|] == needle
  }

  /** Python's `needle in hay` for strings. */
  predicate Contains(hay: string, needle: string)
    decreases |hay|
  {
    IsPrefix(needle, hay) || (hay != [] && Contains(hay[1..], needle))
  }

  /** `Contains` holds exactly when the needle occurs at some position. */
  lemma ContainsAt(hay: string, needle: string)
    ensures Contains(hay, needle) <==>
      exists i :: 0 <= i <= |hay| - |needle| && IsPrefix(needle, hay[i..])
  {
    if Contains(hay, needle) {
      var i := ContainedAt(hay, needle);
    }
    if exists i :: 0 <= i <= |hay| - |needle| && IsPrefix(needle, hay[i..]) {
      var i :| 0 <= i <= |hay| - |needle| && IsPrefix(needle, hay[i..]);
      OccurrenceContained(hay, needle, i);
    }
  }

  /** A position at which a contained needle occurs. */
  lemma {:induction false} ContainedAt(hay: string, needle: string) returns (i: int)
    requires Contains(hay, needle)
    ensures 0 <= i <= |hay| - |needle| && IsPrefix(needle, hay[i..])
    decreases |hay|
  {
    if IsPrefix(needle, hay) {
      i := 0;
      assert hay[0..] == hay;
    } else {
      var j := ContainedAt(hay[1..], needle);
      i := j + 1;
      assert hay[1..][j..] == hay[i..];
    }
  }

  /** A needle occurring at position `i` is contained. */
  lemma {:induction false} OccurrenceContained(hay: string, needle: string, i: int)
    requires 0 <= i <= |hay| - |needle| && IsPrefix(needle, hay[i..])
    ensures Contains(hay, needle)
    decreases i
  {
    if i == 0 {
      assert hay[0..] == hay;
    } else {
      assert hay[1..][i - 1..] == hay[i..];
      OccurrenceContained(hay[1..], needle, i - 1);
    }
  }

  /** A string starting with `p` contains `p`. */
  lemma PrefixContained(p: string, rest: string)
    ensures Contains(p + rest, p)
  {
    assert (p + rest)[..|p|] == p;
  }

  /** The characters Python's `str.isspace()` accepts. */
  predicate IsSpace(c: char)
  {
    ('\t' <= c <= '\r') || ('\U{001c}' <= c <= '\U{001f}') || c == ' ' || c == '\U{0085}'
    || c == '\U{00a0}' || c == '\U{1680}' || ('\U{2000}' <= c <= '\U{200a}') || c == '\U{2028}'
    || c == '\U{2029}' || c == '\U{202f}' || c == '\U{205f}' || c == '\U{3000}'
  }

  predicate AllSpace(s: string)
  {
    forall k :: 0 <= k < |s| ==> IsSpace(s[k])
  }

  /** The number of whitespace characters `s.lstrip()` removes. */
  function LeadingSpaces(s: string): (n: nat)
    ensures n <= |s| && AllSpace(s[..n])
    ensures n < |s| ==> !IsSpace(s[n])
    decreases |s|
  {
    if s != [] && IsSpace(s[0]) then
      var n := LeadingSpaces(s[1..]);
      var head, tail := s[..n + 1], s[1..][..n];
      assert forall k :: 1 <= k < n + 1 ==> head[k] == tail[k - 1];
      n + 1
    else 0
  }

  /** The number of whitespace characters `s.rstrip()` removes. */
  function TrailingSpaces(s: string): (n: nat)
    ensures n <= |s| && AllSpace(s[|s| - n..])
    ensures n < |s| ==> !IsSpace(s[|s| - n - 1])
    decreases |s|
  {
    if s != [] && IsSpace(s[|s| - 1]) then
      var init := s[..|s| - 1];
      var n := TrailingSpaces(init);
      var suffix, tail := s[|s| - n - 1..], init[|init| - n..];
      assert forall k :: 0 <= k < n ==> suffix[k] == tail[k];
      assert suffix[n] == s[|s| - 1];
      assert n + 1 < |s| ==> s[|s| - n - 2] == init[|init| - n - 1];
      n + 1
    else 0
  }

  /** `s.strip()`: the result neither starts nor ends with whitespace. */
  function Strip(s: string): (r: string)
    ensures |r| <= |s|
    ensures r == [] || (!IsSpace(r[0]) && !IsSpace(r[|r| - 1]))
  {
    var t := s[LeadingSpaces(s)..];
    t[..|t| - TrailingSpaces(t)]
  }

  /** Stripping removes exactly the whitespace around a core that does not start or end with whitespace. */
  lemma StripPadded(a: string, b: string, c: string)
    requires AllSpace(a) && AllSpace(c)
    requires b == [] || (!IsSpace(b[0]) && !IsSpace(b[|b| - 1]))
    requires b == [] ==> c == []
    ensures Strip(a + b + c) == b
  {
    var s := a + b + c;
    LeadingSpacesOfPadded(a, b + c);
    assert s == a + (b + c);
    var t := s[LeadingSpaces(s)..];
    assert t == b + c;
    TrailingSpacesOfPadded(b, c);
  }

  /** A string that neither starts nor ends with whitespace is its own strip. */
  lemma StripUnpadded(s: string)
    requires s == [] || (!IsSpace(s[0]) && !IsSpace(s[|s| - 1]))
    ensures Strip(s) == s
  {
    StripPadded([], s, []);
    assert [] + s + [] == s;
  }

  lemma {:induction false} LeadingSpacesOfPadded(a: string, rest: string)
    requires AllSpace(a)
    requires rest == [] || !IsSpace(rest[0])
    ensures LeadingSpaces(a + rest) == |a|
    decreases |a|
  {
    if a != [] {
      assert (a + rest)[1..] == a[1..] + rest;
      LeadingSpacesOfPadded(a[1..], rest);
    }
  }

  lemma {:induction false} TrailingSpacesOfPadded(init: string, c: string)
    requires AllSpace(c)
    requires init == [] || !IsSpace(init[|init| - 1])
    ensures TrailingSpaces(init + c) == |c|
    decreases |c|
  {
    if c != [] {
      assert (init + c)[..|init + c| - 1] == init + c[..|c| - 1];
      TrailingSpacesOfPadded(init, c[..|c| - 1]);
    } else {
      assert init + c == init;
    }
  }

  /** `s.replace(from, to)` for one-character `from` and `to`. */
  function ReplaceChar(s: string, from: char, to: char): (r: string)
    ensures |r| == |s|
    ensures forall k :: 0 <= k < |s| ==> r[k] == (if s[k] == from then to else s[k])
  {
    seq(|s|, k requires 0 <= k < |s| => if s[k] == from then to else s[k])
  }

  /** Replacing a character that does not occur changes nothing. */
  lemma ReplaceAbsent(s: string, from: char, to: char)
    requires from !in s
    ensures ReplaceChar(s, from, to) == s
  {
  }

  /** Replacing `from` by a character `to` that did not occur, and back, restores the string. */
  lemma ReplaceRoundTrip(s: string, from: char, to: char)
    requires to !in s
    ensures ReplaceChar(ReplaceChar(s, from, to), to, from) == s
  {
  }

  /** Lower-casing of one character; only the ASCII letters change. */
  function LowerChar(c: char): char
  {
    if 'A' <= c <= 'Z' then (c as int + 32) as char else c
  }

  /** `s.lower()`, restricted to ASCII letters. */
  function Lower(s: string): (r: string)
    ensures |r| == |s|
    ensures forall k :: 0 <= k < |s| ==> r[k] == LowerChar(s[k])
  {
    seq(|s|, k requires 0 <= k < |s| => LowerChar(s[k]))
  }
}
