/**
 * The marker shapes that open a list item or a definition: up to `ceiling`
 * leading spaces (the optional-space pattern allows three), the marker, then
 * one separator character. The separator class is written `[\t| ]` in the
 * regular expressions, so it holds a tab, a space and a literal `|`.
 */
module Markers {
  import opened Elements
  import opened Lines

  /** Bullet `+ * -`, ordinal `digits.`, definition `:`. */
  datatype Shape = Bullet | Ordinal | Colon

  predicate IsSeparator(c: char)
  {
    c == '\t' || c == '|' || c == ' '
  }

  predicate IsBullet(c: char)
  {
    c == '+' || c == '*' || c == '-'
  }

  /** The length of the run of digits starting at index `k`. */
  function DigitRun(s: string, k: nat): (n: nat)
    requires k <= |s|
    ensures k + n <= |s|
    ensures forall i :: k <= i < k + n ==> IsDigit(s[i])
    ensures k + n == |s| || !IsDigit(s[k + n])
    decreases |s| - k
  {
    if k < |s| && IsDigit(s[k]) then 1 + DigitRun(s, k + 1) else 0
  }

  /**
   * Where the marker (with its leading spaces) ends, when the line starts
   * with one: the width of the first capture group. The rest of the line,
   * from that index on, is the second capture group.
   */
  function MarkerEnd(shape: Shape, line: string): (w: Option<nat>)
    ensures w.Some? ==> LeadingSpaces(line) < w.value <= |line|
  {
    var k := LeadingSpaces(line);
    match shape
    case Bullet => if k < |line| && IsBullet(line[k]) then Some(k + 1) else None
    case Colon => if k < |line| && line[k] == ':' then Some(k + 1) else None
    case Ordinal =>
      var d := DigitRun(line, k);
      if d > 0 && k + d < |line| && line[k + d] == '.' then Some(k + d + 1) else None
  }

  /** The marker pattern with at most `ceiling` leading spaces. */
  function MarkerWidth(shape: Shape, ceiling: nat, line: string): (w: Option<nat>)
    ensures w.Some? ==> 0 < w.value < |line| && IsSeparator(line[w.value])
    ensures w.Some? ==> LeadingSpaces(line) <= ceiling && w == MarkerEnd(shape, line)
  {
    if LeadingSpaces(line) > ceiling then None
    else
      match MarkerEnd(shape, line)
      case Some(w) => if w < |line| && IsSeparator(line[w]) then Some(w) else None
      case None => None
  }

  /** The pattern for either list kind with the optional leading spaces. */
  predicate IsListStart(line: string)
  {
    MarkerWidth(Bullet, 3, line).Some? || MarkerWidth(Ordinal, 3, line).Some?
  }

  /**
   * Narrowing the ceiling only refuses markers with more leading spaces: a
   * line matches the narrowed pattern exactly when it matches the pattern
   * with any wider ceiling and its leading spaces fit under the narrow one.
   */
  lemma MarkerNarrowing(shape: Shape, narrow: nat, wide: nat, line: string)
    requires narrow <= wide
    ensures MarkerWidth(shape, narrow, line).Some? <==>
      MarkerWidth(shape, wide, line).Some? && LeadingSpaces(line) <= narrow
    ensures MarkerWidth(shape, narrow, line).Some? ==>
      MarkerWidth(shape, narrow, line) == MarkerWidth(shape, wide, line)
  {
  }

  /**
   * The marker-narrowing example: after an item of indentation 4 the pattern's
   * ceiling is 3, and a bullet after two spaces still opens an item of the
   * same list.
   */
  lemma BulletAtTwoSpaces(u: string)
    ensures MarkerWidth(Bullet, 3, "  - " + u) == Some(3)
  {
    var line := "  - " + u;
    assert line[0] == ' ' && line[1] == ' ' && line[2] == '-';
    assert LeadingSpaces(line) == 2 by {
      assert line[1..][1..] == "- " + u;
    }
  }

  /** A colon and a space at the start of a line open a definition under any ceiling. */
  lemma ColonAtStart(ceiling: nat, u: string)
    ensures MarkerWidth(Colon, ceiling, ": " + u) == Some(1)
  {
    assert LeadingSpaces(": " + u) == 0;
  }
}
