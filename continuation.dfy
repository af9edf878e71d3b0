/**
 * The two per-item rules built from an item's indentation: the continuation
 * rule (a line indented by `indentation / 4` units of a tab or four spaces
 * and then `indentation % 4` spaces, or by one unit more) and the strip rule
 * (exactly `indentation` leading spaces, removed after leading tabs are
 * widened to four spaces each).
 */
module Continuation {
  import opened Elements
  import opened Lines
  import opened FirstLine

  function Tabs(n: nat): string
  {
    Repeat('\t', n)
  }

  /** The number of characters `n` units (a tab, or four spaces) take. */
  function Units(n: nat, s: string): (r: Option<nat>)
    ensures r.Some? ==> r.value <= |s|
  {
    if n == 0 then Some(0)
    else if s != [] && s[0] == '\t' then
      match Units(n - 1, s[1..])
      case Some(k) => Some(1 + k)
      case None => None
    else if |s| >= 4 && s[..4] == "    " then
      match Units(n - 1, s[4..])
      case Some(k) => Some(4 + k)
      case None => None
    else None
  }

  predicate SpacesAt(s: string, k: nat, m: nat)
  {
    k + m <= |s| && forall i :: k <= i < k + m ==> s[i] == ' '
  }

  /** The continuation rule of an item with the given indentation. */
  predicate ContentMatch(indentation: nat, s: string)
  {
    || (match Units(indentation / 4, s)
        case Some(k) => SpacesAt(s, k, indentation % 4)
        case None => false)
    || Units(indentation / 4 + 1, s).Some?
  }

  /** Every leading tab widened to four spaces. */
  function ExpandLeadingTabs(s: string): string
  {
    var t := RunAt(s, 0, '\t');
    Spaces(4 * t) + s[t..]
  }

  /** The strip rule: exactly `indentation` leading spaces removed, if present. */
  function StripIndent(indentation: nat, s: string): string
  {
    if LeadingSpaces(s) >= indentation then s[indentation..] else s
  }

  /** A continuation line as it is added to the item's buffer (without its newline). */
  function ContinuationText(indentation: nat, s: string): string
  {
    StripIndent(indentation, ExpandLeadingTabs(s))
  }

  /** The width of the first unit of a line that starts with one. */
  function UnitWidth(s: string): nat
  {
    if s != [] && s[0] == '\t' then 1 else 4
  }

  /** One unit taken off: a tab, or four spaces, each reaching the next 4-column stop. */
  lemma UnitStep(n: nat, c: nat, s: string)
    requires n > 0 && c % 4 == 0 && Units(n, s).Some?
    ensures UnitWidth(s) <= |s| && Units(n - 1, s[UnitWidth(s)..]).Some?
    ensures Units(n, s).value == UnitWidth(s) + Units(n - 1, s[UnitWidth(s)..]).value
    ensures TabStopColumn(c, s) == TabStopColumn(c + 4, s[UnitWidth(s)..])
  {
    if UnitWidth(s) == 4 {
      assert forall i :: 0 <= i < 4 ==> s[i] == s[..4][i];
      ColumnOverSpaces(c, s, 4);
    }
  }

  lemma {:induction false} UnitsColumn(n: nat, c: nat, s: string)
    requires c % 4 == 0 && Units(n, s).Some?
    ensures TabStopColumn(c, s) == TabStopColumn(c + 4 * n, s[Units(n, s).value..])
    decreases n
  {
    if n > 0 {
      var w := UnitWidth(s);
      UnitStep(n, c, s);
      var k := Units(n - 1, s[w..]).value;
      assert (c + 4) % 4 == 0;
      UnitsColumn(n - 1, c + 4, s[w..]);
      assert s[w..][k..] == s[Units(n, s).value..];
    }
  }

  /**
   * A line the continuation rule accepts is indented, once its tabs are
   * counted to 4-column stops, by at least the item's indentation.
   */
  lemma ContentMatchColumn(indentation: nat, s: string)
    requires ContentMatch(indentation, s)
    ensures TabStopColumn(0, s) >= indentation
  {
    var q := indentation / 4;
    if Units(q + 1, s).Some? {
      UnitsColumn(q + 1, 0, s);
    } else {
      var k := Units(q, s).value;
      UnitsColumn(q, 0, s);
      assert SpacesAt(s, k, indentation % 4);
      ColumnOverSpaces(4 * q, s[k..], indentation % 4);
    }
  }

  /**
   * The converse does not hold: the continuation rule counts tabs and groups
   * of four spaces, not tab stops, so two spaces and a tab reach column 4
   * yet do not continue an item indented by 4.
   */
  lemma MixedPrefixNoMatch()
    ensures TabStopColumn(0, "  \tx") == 4
    ensures !ContentMatch(4, "  \tx")
  {
    var s := "  \tx";
    assert s[1..] == " \tx" && s[1..][1..] == "\tx" && s[1..][1..][1..] == "x";
    assert s[..4] != "    " by { assert s[2] == '\t'; }
    assert Units(1, s).None? && Units(2, s).None?;
  }

  lemma {:induction false} UnitsOfSpaces(n: nat, s: string)
    requires 4 * n <= |s| && forall i :: 0 <= i < 4 * n ==> s[i] == ' '
    ensures Units(n, s) == Some(4 * n)
    decreases n
  {
    if n > 0 {
      assert s[..4] == "    ";
      UnitsOfSpaces(n - 1, s[4..]);
    }
  }

  lemma {:induction false} UnitsOfTabs(n: nat, s: string)
    requires n <= |s| && forall i :: 0 <= i < n ==> s[i] == '\t'
    ensures Units(n, s) == Some(n)
    decreases n
  {
    if n > 0 {
      UnitsOfTabs(n - 1, s[1..]);
    }
  }

  /**
   * A line indented by exactly the item's indentation in spaces continues
   * the item, and loses exactly those spaces.
   */
  lemma ContinuationOfSpaces(indentation: nat, u: string)
    requires indentation > 0
    ensures ContentMatch(indentation, Spaces(indentation) + u)
    ensures ContinuationText(indentation, Spaces(indentation) + u) == u
  {
    var s := Spaces(indentation) + u;
    var q := indentation / 4;
    UnitsOfSpaces(q, s);
    assert SpacesAt(s, 4 * q, indentation % 4);
    assert RunAt(s, 0, '\t') == 0;
    assert ExpandLeadingTabs(s) == s;
    LeadingSpacesOfSpaces(indentation, u);
    assert s[indentation..] == u;
  }

  lemma ExpandTabsPrefix(t: nat, u: string)
    requires u == [] || u[0] != '\t'
    ensures ExpandLeadingTabs(Tabs(t) + u) == Spaces(4 * t) + u
  {
    var s := Tabs(t) + u;
    RunAtTabs(t, u);
    assert s[t..] == u;
  }

  lemma StripIndentOfSpaces(n: nat, indentation: nat, u: string)
    requires indentation <= n
    ensures StripIndent(indentation, Spaces(n) + u) == Spaces(n - indentation) + u
  {
    LeadingSpacesOfSpaces(n, u);
    assert (Spaces(n) + u)[indentation..] == Spaces(n - indentation) + u;
  }

  /** A line indented by `t` tabs reaching the item's indentation matches the continuation rule. */
  lemma TabsMatch(indentation: nat, t: nat, u: string)
    requires 4 * t >= indentation
    ensures ContentMatch(indentation, Tabs(t) + u)
  {
    var s := Tabs(t) + u;
    var q := indentation / 4;
    assert indentation == 4 * q + indentation % 4;
    if t >= q + 1 {
      UnitsOfTabs(q + 1, s);
    } else {
      assert t == q && indentation % 4 == 0;
      UnitsOfTabs(q, s);
      assert SpacesAt(s, q, 0);
    }
  }

  /**
   * Tab equivalence: a line indented by `t` tabs reaching the item's
   * indentation continues the item, and keeps the columns beyond it as spaces.
   */
  lemma ContinuationOfTabs(indentation: nat, t: nat, u: string)
    requires 4 * t >= indentation
    requires u == [] || u[0] != '\t'
    ensures ContentMatch(indentation, Tabs(t) + u)
    ensures ContinuationText(indentation, Tabs(t) + u) == Spaces(4 * t - indentation) + u
  {
    TabsMatch(indentation, t, u);
    ExpandTabsPrefix(t, u);
    StripIndentOfSpaces(4 * t, indentation, u);
  }

  lemma {:induction false} RunAtTabs(t: nat, u: string)
    requires u == [] || u[0] != '\t'
    ensures RunAt(Tabs(t) + u, 0, '\t') == t
  {
    var s := Tabs(t) + u;
    assert forall i :: 0 <= i < t ==> s[i] == '\t';
    assert t == |s| || s[t] != '\t';
  }
}
