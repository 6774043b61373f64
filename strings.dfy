/**
 * The two string operations of Python that the language-list parsing relies on:
 * `str.split(sep)` with an explicit one-character separator, and `str.strip()`
 * with no argument.
 */
module Strings {

  /** Number of occurrences of `c` in `s`. */
  function Count(s: string, c: char): (n: nat)
    ensures n <= |s|
  {
    if s == [] then 0 else (if s[0] == c then 1 else 0) + Count(s[1..], c)
  }

  /**
   * Python's `s.split(sep)`: the maximal runs of characters between separators,
   * in order, empty runs included; an empty string gives one empty piece.
   */
  function Split(s: string, sep: char): (pieces: seq<string>)
    ensures |pieces| == Count(s, sep) + 1
    ensures forall i :: 0 <= i < |pieces| ==> sep !in pieces[i]
    decreases |s|
  {
    if s == [] then [[]]
    else
      var rest := Split(s[1..], sep);
      if s[0] == sep then [[]] + rest
      else [[s[0]] + rest[0]] + rest[1..]
  }

  /** Python's `sep.join(pieces)` for a one-character separator and at least one piece. */
  function Join(pieces: seq<string>, sep: char): string
    requires |pieces| >= 1
    decreases |pieces|
  {
    if |pieces| == 1 then pieces[0] else pieces[0] + [sep] + Join(pieces[1..], sep)
  }

  /** Splitting a string that starts with `c`, in terms of splitting the rest. */
  lemma SplitCons(c: char, s: string, sep: char)
    ensures var rest := Split(s, sep);
      Split([c] + s, sep) == if c == sep then [[]] + rest else [[c] + rest[0]] + rest[1..]
  {
    assert ([c] + s)[1..] == s;
  }

  /** Joining after a leading piece, in terms of joining the rest. */
  lemma JoinCons(p: string, rest: seq<string>, sep: char)
    requires |rest| >= 1
    ensures Join([p] + rest, sep) == p + [sep] + Join(rest, sep)
  {
    assert ([p] + rest)[1..] == rest;
  }

  /** Joining the pieces of a split with the same separator gives back the input. */
  lemma {:induction false} JoinSplit(s: string, sep: char)
    ensures Join(Split(s, sep), sep) == s
    decreases |s|
  {
    if s != [] {
      var c, tail := s[0], s[1..];
      assert s == [c] + tail;
      JoinSplit(tail, sep);
      SplitCons(c, tail, sep);
      var rest := Split(tail, sep);
      if c == sep {
        JoinCons([], rest, sep);
      } else if |rest| == 1 {
        assert Split(s, sep) == [[c] + rest[0]];
      } else {
        JoinCons(rest[0], rest[1..], sep);
        JoinCons([c] + rest[0], rest[1..], sep);
        assert [rest[0]] + rest[1..] == rest;
      }
    }
  }

  /** Splitting a join of separator-free pieces gives back the pieces. */
  lemma {:induction false} SplitJoin(pieces: seq<string>, sep: char)
    requires |pieces| >= 1
    requires forall i :: 0 <= i < |pieces| ==> sep !in pieces[i]
    ensures Split(Join(pieces, sep), sep) == pieces
    decreases |pieces|, |pieces[0]|
  {
    var p, rest := pieces[0], pieces[1..];
    assert pieces == [p] + rest;
    if p == [] {
      if |rest| >= 1 {
        SplitJoin(rest, sep);
        JoinCons(p, rest, sep);
        SplitCons(sep, Join(rest, sep), sep);
      }
    } else {
      var c := p[0];
      assert p == [c] + p[1..];
      var shorter := [p[1..]] + rest;
      assert shorter[1..] == rest;
      SplitJoin(shorter, sep);
      if |rest| >= 1 {
        JoinCons(p, rest, sep);
        JoinCons(p[1..], rest, sep);
        assert Join(pieces, sep) == [c] + Join(shorter, sep);
      }
      SplitCons(c, Join(shorter, sep), sep);
    }
  }

  /**
   * Python's `str.isspace()` for a single character: the Unicode characters
   * of bidirectional class WS, B or S, or of category Zs.
   */
  predicate IsSpace(c: char) {
    || ('\t' <= c <= '\r')                      // tab, line feed, vertical tab, form feed, carriage return
    || ('\U{1C}' <= c <= '\U{1F}')              // file, group, record and unit separators
    || c == ' '
    || c == '\U{85}'                            // next line
    || c == '\U{A0}'                            // no-break space
    || c == '\U{1680}'                          // ogham space mark
    || ('\U{2000}' <= c <= '\U{200A}')          // en quad .. hair space
    || c == '\U{2028}' || c == '\U{2029}'       // line and paragraph separators
    || c == '\U{202F}' || c == '\U{205F}'       // narrow no-break, medium mathematical space
    || c == '\U{3000}'                          // ideographic space
  }

  /** `s` neither starts nor ends with whitespace. */
  predicate Unpadded(s: string) {
    s != [] ==> !IsSpace(s[0]) && !IsSpace(s[|s| - 1])
  }

  /** Number of whitespace characters at the start of `s`. */
  function LeadingSpaces(s: string): (n: nat)
    ensures n <= |s|
    ensures forall k :: 0 <= k < n ==> IsSpace(s[k])
    ensures n < |s| ==> !IsSpace(s[n])
    decreases |s|
  {
    if s != [] && IsSpace(s[0]) then 1 + LeadingSpaces(s[1..]) else 0
  }

  /** Number of whitespace characters at the end of `s`. */
  function TrailingSpaces(s: string): (n: nat)
    ensures n <= |s|
    ensures forall k :: |s| - n <= k < |s| ==> IsSpace(s[k])
    ensures n < |s| ==> !IsSpace(s[|s| - n - 1])
    decreases |s|
  {
    if s != [] && IsSpace(s[|s| - 1]) then 1 + TrailingSpaces(s[..|s| - 1]) else 0
  }

  /** Python's `s.strip()`: `s` without its leading and its trailing whitespace. */
  function Strip(s: string): (r: string)
    ensures |r| <= |s|
    ensures Unpadded(r)
  {
    var t := s[LeadingSpaces(s)..];
    t[..|t| - TrailingSpaces(t)]
  }

  /**
   * The strip is the slice of `s` that starts at its first non-space and ends
   * at its last non-space; everything cut off on either side is whitespace.
   */
  lemma StripIsInnerSlice(s: string)
    ensures var start := LeadingSpaces(s);
      && start + |Strip(s)| <= |s|
      && Strip(s) == s[start..start + |Strip(s)|]
      && (forall k :: 0 <= k < start ==> IsSpace(s[k]))
      && (forall k :: start + |Strip(s)| <= k < |s| ==> IsSpace(s[k]))
  {
    var start := LeadingSpaces(s);
    var t := s[start..];
    var r := Strip(s);
    assert r == t[..|r|];
    assert r == s[start..start + |r|];
    SuffixTrailingSpaces(s, start);
  }

  /** The trailing whitespace of a suffix of `s` is trailing whitespace of `s`. */
  lemma SuffixTrailingSpaces(s: string, start: nat)
    requires start <= |s|
    ensures forall k :: |s| - TrailingSpaces(s[start..]) <= k < |s| ==> IsSpace(s[k])
  {
    var t := s[start..];
    forall k | |s| - TrailingSpaces(t) <= k < |s|
      ensures IsSpace(s[k])
    {
      assert s[k] == t[k - start];
    }
  }

  /** Joining three pieces puts the separator between each two. */
  lemma JoinThree(x: string, y: string, z: string, sep: char)
    ensures Join([x, y, z], sep) == x + [sep] + y + [sep] + z
  {
    assert [x, y, z][1..] == [y, z];
    assert [y, z][1..] == [z];
    assert Join([y, z], sep) == y + [sep] + z;
    assert Join([x, y, z], sep) == x + [sep] + (y + [sep] + z);
  }

  /** Stripping adds no character: one absent from `s` is absent from its strip. */
  lemma StripAddsNothing(s: string, c: char)
    requires c !in s
    ensures c !in Strip(s)
  {
    StripIsInnerSlice(s);
    var start, r := LeadingSpaces(s), Strip(s);
    forall k | 0 <= k < |r|
      ensures r[k] != c
    {
      assert r[k] == s[start + k];
    }
  }

  /** A string that neither starts nor ends with whitespace is its own strip. */
  lemma StripUnpadded(s: string)
    requires Unpadded(s)
    ensures Strip(s) == s
  {
  }

  /** Leading whitespace does not survive a strip. */
  lemma StripLeadingSpace(c: char, s: string)
    requires IsSpace(c)
    ensures Strip([c] + s) == Strip(s)
  {
    var cs := [c] + s;
    assert cs[1..] == s;
    var n := LeadingSpaces(s);
    assert LeadingSpaces(cs) == 1 + n;
    assert cs[1 + n..] == s[n..];
  }

  /** Stripping twice is stripping once. */
  lemma StripIdempotent(s: string)
    ensures Strip(Strip(s)) == Strip(s)
  {
    StripUnpadded(Strip(s));
  }
}
