/**
 * Character classes and small string operations on one source line. A line
 * never holds its terminating newline; the regex engine's `\s` class is the
 * ASCII whitespace below.
 */
module Lines {

  /** Ruby 1.9's `\s`: space, tab, newline, carriage return and form feed. */
  predicate IsWhite(c: char)
  {
    c == ' ' || c == '\t' || c == '\n' || c == '\r' || c == '\U{C}'
  }

  predicate IsDigit(c: char)
  {
    '0' <= c <= '9'
  }

  /** True when every character is whitespace (the line is blank). */
  predicate AllWhite(s: string)
  {
    forall i :: 0 <= i < |s| ==> IsWhite(s[i])
  }

  /** `n` copies of the character `c`. */
  function Repeat(c: char, n: nat): (r: string)
    ensures |r| == n
    ensures forall i :: 0 <= i < n ==> r[i] == c
  {
    if n == 0 then "" else Repeat(c, n - 1) + [c]
  }

  function Spaces(n: nat): string
  {
    Repeat(' ', n)
  }

  /** The length of the run of spaces a string starts with. */
  function LeadingSpaces(s: string): (n: nat)
    ensures n <= |s|
    ensures forall i :: 0 <= i < n ==> s[i] == ' '
    ensures n == |s| || s[n] != ' '
  {
    if s != [] && s[0] == ' ' then 1 + LeadingSpaces(s[1..]) else 0
  }

  /** The length of the run of `c` characters starting at index `k`. */
  function RunAt(s: string, k: nat, c: char): (n: nat)
    requires k <= |s|
    ensures k + n <= |s|
    ensures forall i :: k <= i < k + n ==> s[i] == c
    ensures k + n == |s| || s[k + n] != c
    decreases |s| - k
  {
    if k < |s| && s[k] == c then 1 + RunAt(s, k + 1, c) else 0
  }

  /** The string with its leading whitespace removed. */
  function StripWhite(s: string): (r: string)
    ensures |r| <= |s|
    ensures r == [] || !IsWhite(r[0])
  {
    if s != [] && IsWhite(s[0]) then StripWhite(s[1..]) else s
  }

  lemma {:induction false} LeadingSpacesOfSpaces(n: nat, u: string)
    ensures LeadingSpaces(Spaces(n) + u) == n + LeadingSpaces(u)
  {
    if n > 0 {
      assert (Spaces(n) + u)[1..] == Spaces(n - 1) + u by {
        assert Spaces(n) == " " + Spaces(n - 1) by { SpacesCons(n); }
      }
      LeadingSpacesOfSpaces(n - 1, u);
    } else {
      assert Spaces(n) + u == u;
    }
  }

  lemma {:induction false} SpacesCons(n: nat)
    requires n > 0
    ensures Spaces(n) == " " + Spaces(n - 1)
  {
    assert Spaces(n) == Spaces(n - 1) + " ";
  }

  /**
   * Splitting on newlines as the host language's `split("\n")` does: every
   * piece between separators, with trailing empty pieces dropped.
   */
  function SplitLines(s: string): seq<string>
  {
    DropTrailingEmpty(SplitAll(s))
  }

  /** Every piece between newline separators, the empty ones included. */
  function SplitAll(s: string): (r: seq<string>)
    ensures |r| > 0
    ensures forall i :: 0 <= i < |r| ==> '\n' !in r[i]
  {
    if s == [] then [""]
    else
      var rest := SplitAll(s[1..]);
      if s[0] == '\n' then [""] + rest
      else [[s[0]] + rest[0]] + rest[1..]
  }

  function DropTrailingEmpty(parts: seq<string>): (r: seq<string>)
    ensures |r| <= |parts| && r == parts[..|r|]
    ensures r == [] || Last(r) != ""
    ensures forall i :: |r| <= i < |parts| ==> parts[i] == ""
  {
    if parts == [] then []
    else if Last(parts) == "" then DropTrailingEmpty(parts[..|parts| - 1])
    else parts
  }

  function Min(a: int, b: int): int
  {
    if a < b then a else b
  }

  function Last<T>(s: seq<T>): T
    requires |s| > 0
  {
    s[|s| - 1]
  }

  /** The pieces joined back together with newline separators. */
  function JoinLines(parts: seq<string>): string
  {
    if parts == [] then ""
    else if |parts| == 1 then parts[0]
    else parts[0] + "\n" + JoinLines(parts[1..])
  }

  /** Splitting and re-joining gives back the string. */
  lemma {:induction false} SplitAllJoin(s: string)
    ensures JoinLines(SplitAll(s)) == s
  {
    if s != [] {
      var rest := SplitAll(s[1..]);
      SplitAllJoin(s[1..]);
      if s[0] == '\n' {
        assert SplitAll(s) == [""] + rest;
        assert ([""] + rest)[1..] == rest;
        assert s == "\n" + s[1..];
      } else {
        var r := [[s[0]] + rest[0]] + rest[1..];
        assert SplitAll(s) == r;
        if |rest| == 1 {
          assert s == [s[0]] + rest[0];
        } else {
          assert r[1..] == rest[1..];
          assert JoinLines(rest) == rest[0] + "\n" + JoinLines(rest[1..]);
          assert s == [s[0]] + s[1..];
        }
      }
    }
  }

  /** Joining with one more, empty, piece adds one newline separator. */
  lemma {:induction false} JoinAppendEmpty(parts: seq<string>)
    requires |parts| > 0
    ensures JoinLines(parts + [""]) == JoinLines(parts) + "\n"
    decreases |parts|
  {
    if |parts| > 1 {
      assert (parts + [""])[1..] == parts[1..] + [""];
      JoinAppendEmpty(parts[1..]);
    }
  }

  /**
   * Dropping the trailing empty pieces only drops newline separators from
   * the end of the joined text.
   */
  lemma {:induction false} DropTrailingJoin(parts: seq<string>)
    requires |parts| > 0
    ensures var j := JoinLines(DropTrailingEmpty(parts)); var all := JoinLines(parts);
      |j| <= |all| && all[..|j|] == j && forall i :: |j| <= i < |all| ==> all[i] == '\n'
    decreases |parts|
  {
    if Last(parts) == "" {
      var front := parts[..|parts| - 1];
      assert parts == front + [""];
      if front == [] {
        assert DropTrailingEmpty(parts) == DropTrailingEmpty(front) == [];
      } else {
        DropTrailingJoin(front);
        JoinAppendEmpty(front);
      }
    }
  }

  /** The joined text ends with the last piece. */
  lemma {:induction false} JoinEndsWithLast(parts: seq<string>)
    requires |parts| > 0
    ensures var j := JoinLines(parts);
      |Last(parts)| <= |j| && j[|j| - |Last(parts)|..] == Last(parts)
    decreases |parts|
  {
    if |parts| > 1 {
      JoinEndsWithLast(parts[1..]);
      var j := JoinLines(parts);
      var tail := JoinLines(parts[1..]);
      assert Last(parts[1..]) == Last(parts);
      assert j == (parts[0] + "\n") + tail;
      assert j[|j| - |tail|..] == tail;
    }
  }

  /**
   * Splitting as `split("\n")` does loses nothing but trailing newlines: the
   * pieces hold no newline, joined back they are a prefix of the text, the
   * rest of the text is newlines only, and the joined pieces do not
   * themselves end with a newline, so every trailing newline is dropped.
   */
  lemma SplitLinesJoin(s: string)
    ensures forall i :: 0 <= i < |SplitLines(s)| ==> '\n' !in SplitLines(s)[i]
    ensures var j := JoinLines(SplitLines(s));
      |j| <= |s| && s[..|j|] == j && forall i :: |j| <= i < |s| ==> s[i] == '\n'
    ensures var j := JoinLines(SplitLines(s)); |j| == 0 || j[|j| - 1] != '\n'
  {
    SplitAllJoin(s);
    DropTrailingJoin(SplitAll(s));
    var parts := SplitLines(s);
    if parts != [] {
      JoinEndsWithLast(parts);
      var j := JoinLines(parts);
      var p := Last(parts);
      assert p != "" && '\n' !in p;
      assert j[|j| - 1] == p[|p| - 1];
    }
  }
}
