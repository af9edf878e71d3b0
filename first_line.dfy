/**
 * The first line of a list item or definition: tab expansion, the item's
 * indentation, and the two per-item rules derived from it (which following
 * lines continue the item, and how their indentation is removed).
 */
module FirstLine {
  import opened Lines

  /** True when a (possibly empty) run of spaces is followed by a tab. */
  predicate TabAfterSpaces(s: string)
  {
    LeadingSpaces(s) < |s| && s[LeadingSpaces(s)] == '\t'
  }

  /** The amount of leading space and tab characters. */
  function BlankRun(s: string): (n: nat)
    ensures n <= |s|
    ensures n == |s| || (s[n] != ' ' && s[n] != '\t')
    ensures forall i :: 0 <= i < n ==> s[i] == ' ' || s[i] == '\t'
  {
    if s != [] && (s[0] == ' ' || s[0] == '\t') then 1 + BlankRun(s[1..]) else 0
  }

  /**
   * Reference definition of the column a run of leading blanks reaches when
   * the text starts at column `col`: a space advances one column, a tab to
   * the next multiple of 4.
   */
  function TabStopColumn(col: nat, s: string): (c: nat)
    ensures c >= col
    decreases |s|
  {
    if s != [] && s[0] == ' ' then TabStopColumn(col + 1, s[1..])
    else if s != [] && s[0] == '\t' then TabStopColumn(col + 4 - col % 4, s[1..])
    else col
  }

  /** Where the run of tabs after the leading spaces ends. */
  function TabRunEnd(s: string): (e: nat)
    requires TabAfterSpaces(s)
    ensures LeadingSpaces(s) < e <= |s|
    ensures forall i :: 0 <= i < e ==> s[i] == ' ' || s[i] == '\t'
  {
    LeadingSpaces(s) + RunAt(s, LeadingSpaces(s), '\t')
  }

  /**
   * How many spaces one round of the expansion loop writes in place of the
   * leading spaces and the tab run: the first tab reaches the next multiple
   * of 4 from column `base` plus the leading spaces, each further tab 4 more.
   */
  function StepWidth(base: nat, s: string): nat
    requires TabAfterSpaces(s)
  {
    var k := LeadingSpaces(s);
    k + 4 - (base + k) % 4 + 4 * (TabRunEnd(s) - k - 1)
  }

  /** One round of the expansion loop. */
  function ExpandStep(base: nat, s: string): (r: string)
    requires TabAfterSpaces(s)
    ensures |r| - LeadingSpaces(r) < |s| - LeadingSpaces(s)
  {
    LeadingSpacesOfSpaces(StepWidth(base, s), s[TabRunEnd(s)..]);
    Spaces(StepWidth(base, s)) + s[TabRunEnd(s)..]
  }

  /** The expansion loop run to its end. */
  function ExpandTabs(base: nat, s: string): string
    decreases |s| - LeadingSpaces(s)
  {
    if TabAfterSpaces(s) then ExpandTabs(base, ExpandStep(base, s)) else s
  }

  /**
   * The result of the first-line classifier: the item's first content line
   * (stripped of leading whitespace, with its newline, or empty when the line
   * is blank) and the item's indentation.
   */
  datatype FirstResult = FirstResult(text: string, indentation: nat)

  /**
   * `base` is the width of the marker (with its leading spaces) and
   * `content` the rest of the line after it.
   */
  function FirstListLine(base: nat, content: string): FirstResult
  {
    if AllWhite(content) then FirstResult(StripWhite(content + "\n"), 4)
    else
      var e := ExpandTabs(base, content);
      FirstResult(StripWhite(e + "\n"), base + LeadingSpaces(e))
  }

  /**
   * The first-line classifier as the source runs it: the tab runs after the
   * leading spaces are rewritten in place until none is left.
   */
  method ParseFirstListLine(indentation: nat, content: string) returns (text: string, ind: nat)
    ensures FirstResult(text, ind) == FirstListLine(indentation, content)
    ensures AllWhite(content) ==> ind == 4 && text == ""
    ensures !AllWhite(content) ==> ind >= indentation && |text| > 1 && text[|text| - 1] == '\n'
    ensures text == [] || !IsWhite(text[0])
  {
    var c := content;
    if AllWhite(c) {
      ind := 4;
      StripBlank(c);
    } else {
      while TabAfterSpaces(c)
        invariant ExpandTabs(indentation, c) == ExpandTabs(indentation, content)
        invariant !AllWhite(c)
        decreases |c| - LeadingSpaces(c)
      {
        ExpandKeepsNonBlank(indentation, c);
        c := ExpandStep(indentation, c);
      }
      ind := indentation + LeadingSpaces(c);
      StripNonBlank(c);
    }
    text := StripWhite(c + "\n");
  }

  lemma {:induction false} StripBlank(s: string)
    requires AllWhite(s)
    ensures StripWhite(s + "\n") == ""
    decreases |s|
  {
    if s != [] {
      assert (s + "\n")[1..] == s[1..] + "\n";
      StripBlank(s[1..]);
    } else {
      assert StripWhite("\n") == StripWhite("");
    }
  }

  lemma {:induction false} StripNonBlank(s: string)
    requires !AllWhite(s)
    ensures StripWhite(s + "\n") == StripWhite(s) + "\n"
    ensures |StripWhite(s)| > 0
    decreases |s|
  {
    assert (s + "\n")[0] == s[0];
    if IsWhite(s[0]) {
      var i :| 0 <= i < |s| && !IsWhite(s[i]);
      assert s[1..][i - 1] == s[i];
      assert (s + "\n")[1..] == s[1..] + "\n";
      StripNonBlank(s[1..]);
    }
  }

  /** A step keeps a non-blank character, so a non-blank line stays non-blank. */
  lemma ExpandKeepsNonBlank(base: nat, s: string)
    requires TabAfterSpaces(s) && !AllWhite(s)
    ensures !AllWhite(ExpandStep(base, s))
  {
    var w := StepWidth(base, s);
    var e := TabRunEnd(s);
    var i :| 0 <= i < |s| && !IsWhite(s[i]);
    assert (Spaces(w) + s[e..])[w + (i - e)] == s[i];
  }

  /** What follows the run of leading blanks. */
  function Rest(s: string): string
  {
    s[BlankRun(s)..]
  }

  lemma {:induction false} ColumnOverSpaces(c: nat, s: string, m: nat)
    requires m <= |s| && forall i :: 0 <= i < m ==> s[i] == ' '
    ensures TabStopColumn(c, s) == TabStopColumn(c + m, s[m..])
    decreases m
  {
    if m > 0 {
      assert s[1..][m - 1..] == s[m..];
      ColumnOverSpaces(c + 1, s[1..], m - 1);
    }
  }

  lemma {:induction false} ColumnOverTabs(c: nat, s: string, m: nat)
    requires 1 <= m <= |s| && forall i :: 0 <= i < m ==> s[i] == '\t'
    ensures TabStopColumn(c, s) == TabStopColumn(c + 4 - c % 4 + 4 * (m - 1), s[m..])
    decreases m
  {
    var d := c + 4 - c % 4;
    assert TabStopColumn(c, s) == TabStopColumn(d, s[1..]);
    if m > 1 {
      assert d == 4 * (c / 4 + 1);
      assert d % 4 == 0;
      assert s[1..][m - 1..] == s[m..];
      ColumnOverTabs(d, s[1..], m - 1);
    }
  }

  lemma {:induction false} BlankRunSkip(s: string, m: nat)
    requires m <= |s| && forall i :: 0 <= i < m ==> s[i] == ' ' || s[i] == '\t'
    ensures BlankRun(s) == m + BlankRun(s[m..])
    decreases m
  {
    if m > 0 {
      assert s[1..][m - 1..] == s[m..];
      BlankRunSkip(s[1..], m - 1);
    }
  }

  lemma {:induction false} StripWhiteSkip(s: string, m: nat)
    requires m <= |s| && forall i :: 0 <= i < m ==> IsWhite(s[i])
    ensures StripWhite(s) == StripWhite(s[m..])
    decreases m
  {
    if m > 0 {
      assert s[1..][m - 1..] == s[m..];
      StripWhiteSkip(s[1..], m - 1);
    }
  }

  lemma ColumnOfSpacesPrefix(c: nat, n: nat, u: string)
    ensures TabStopColumn(c, Spaces(n) + u) == TabStopColumn(c + n, u)
  {
    var r := Spaces(n) + u;
    assert r[n..] == u;
    ColumnOverSpaces(c, r, n);
  }

  lemma ColumnOfSpacesTabs(c: nat, s: string, k: nat, t: nat, n: nat)
    requires 1 <= t && k + t <= |s|
    requires forall i :: 0 <= i < k ==> s[i] == ' '
    requires forall i :: k <= i < k + t ==> s[i] == '\t'
    requires n == k + 4 - (c + k) % 4 + 4 * (t - 1)
    ensures TabStopColumn(c, s) == TabStopColumn(c + n, s[k + t..])
  {
    var sk := s[k..];
    assert sk[t..] == s[k + t..];
    ColumnOverSpaces(c, s, k);
    ColumnOverTabs(c + k, sk, t);
  }

  lemma ColumnOfStep(base: nat, s: string)
    requires TabAfterSpaces(s)
    ensures TabStopColumn(base, s) == TabStopColumn(base + StepWidth(base, s), s[TabRunEnd(s)..])
  {
    var k := LeadingSpaces(s);
    ColumnOfSpacesTabs(base, s, k, TabRunEnd(s) - k, StepWidth(base, s));
  }

  /** One expansion round keeps the column the blanks reach. */
  lemma ExpandStepColumn(base: nat, s: string)
    requires TabAfterSpaces(s)
    ensures TabStopColumn(base, ExpandStep(base, s)) == TabStopColumn(base, s)
  {
    ColumnOfSpacesPrefix(base, StepWidth(base, s), s[TabRunEnd(s)..]);
    ColumnOfStep(base, s);
  }

  lemma RestOfBlanks(s: string, m: nat)
    requires m <= |s| && forall i :: 0 <= i < m ==> s[i] == ' ' || s[i] == '\t'
    ensures Rest(s) == Rest(s[m..])
  {
    BlankRunSkip(s, m);
    assert s[m + BlankRun(s[m..])..] == s[m..][BlankRun(s[m..])..];
  }

  /** One expansion round keeps what follows the blanks. */
  lemma ExpandStepRest(base: nat, s: string)
    requires TabAfterSpaces(s)
    ensures Rest(ExpandStep(base, s)) == Rest(s)
  {
    SpacesPrefixRest(StepWidth(base, s), s[TabRunEnd(s)..]);
    RestOfBlanks(s, TabRunEnd(s));
  }

  lemma SpacesPrefixRest(n: nat, u: string)
    ensures Rest(Spaces(n) + u) == Rest(u)
  {
    var r := Spaces(n) + u;
    assert r[n..] == u;
    RestOfBlanks(r, n);
  }

  /**
   * The expansion loop ends with no tab after the leading spaces; the spaces
   * it leaves reach the tab-stop column of the original blanks, and the
   * text after the blanks is untouched.
   */
  lemma {:induction false} ExpandTabsColumn(base: nat, s: string)
    ensures !TabAfterSpaces(ExpandTabs(base, s))
    ensures base + LeadingSpaces(ExpandTabs(base, s)) == TabStopColumn(base, s)
    ensures ExpandTabs(base, s) == Spaces(LeadingSpaces(ExpandTabs(base, s))) + Rest(s)
    decreases |s| - LeadingSpaces(s)
  {
    if TabAfterSpaces(s) {
      ExpandStepColumn(base, s);
      ExpandStepRest(base, s);
      ExpandTabsColumn(base, ExpandStep(base, s));
    } else {
      var k := LeadingSpaces(s);
      ColumnOverSpaces(base, s, k);
      BlankRunSkip(s, k);
      assert BlankRun(s[k..]) == 0;
      assert s == Spaces(k) + s[k..];
    }
  }

  lemma StripWhiteAfter(s: string, m: nat)
    requires m <= |s| && forall i :: 0 <= i < m ==> IsWhite(s[i])
    ensures StripWhite(s + "\n") == StripWhite(s[m..] + "\n")
  {
    var x := s + "\n";
    assert x[m..] == s[m..] + "\n";
    assert forall i :: 0 <= i < m ==> x[i] == s[i];
    StripWhiteSkip(x, m);
  }

  /**
   * The classifier's result: a blank rest of line gives indentation 4 and
   * empty content; otherwise the indentation is the tab-stop column the
   * blanks after the marker reach (so never less than the marker's width),
   * and the content is the rest of the line with leading whitespace removed.
   */
  lemma FirstListLineMeaning(base: nat, content: string)
    ensures AllWhite(content) ==> FirstListLine(base, content) == FirstResult("", 4)
    ensures !AllWhite(content) ==>
      && FirstListLine(base, content).indentation == TabStopColumn(base, content)
      && FirstListLine(base, content).indentation >= base
      && FirstListLine(base, content).text == StripWhite(content + "\n")
  {
    if AllWhite(content) {
      StripBlank(content);
    } else {
      var e := ExpandTabs(base, content);
      ExpandTabsColumn(base, content);
      var k := LeadingSpaces(e);
      assert e[k..] == Rest(content);
      StripWhiteAfter(e, k);
      StripWhiteAfter(content, BlankRun(content));
    }
  }
}
