/**
 * The scanning loop of the definition-list parser: like the list loop, but
 * with the definition marker only, no horizontal-rule or end-of-block test,
 * no nested-list check, and a flag telling whether a blank line came just
 * before the next definition.
 */
module DefinitionScan {
  import opened Elements
  import opened Lines
  import opened FirstLine
  import opened Continuation
  import opened Markers

  /** What the loop makes of a line, in the order the tests are tried. */
  datatype DefLineKind =
    | DdMarker        // a new definition
    | DdContinuation  // added to the definition
    | DdBlank         // added to the definition, and sets the flag
    | DdOther         // anything else: stop, not consumed

  /**
   * The loop's local state: the definitions so far (the last is the current
   * one), the ceiling on a marker's leading spaces, the current definition's
   * indentation, and the `first_as_para` flag. Once a definition has
   * begun, the flag holds exactly when the last line consumed was blank; the
   * source's blank-line pattern takes a whole run of blank lines at once, so
   * a blank line met while the flag holds belongs to that run.
   */
  datatype DefState = DefState(items: seq<Element>, ceiling: nat, indentation: nat, firstAsPara: bool)

  datatype DefScanResult = DefScanResult(final: DefState, next: nat, trace: seq<DefLineKind>)

  /** The state at the loop's start; the flag says whether a blank line was popped with the terms. */
  function DefInitial(firstAsPara: bool): DefState
  {
    DefState([], 3, 0, firstAsPara)
  }

  /** Before the first definition the cursor is on a line the definition-start pattern accepts. */
  predicate DefCanClassify(st: DefState, line: string)
  {
    |st.items| > 0 || MarkerWidth(Colon, st.ceiling, line).Some?
  }

  function DefClassify(g: Grammar, st: DefState, line: string): (k: DefLineKind)
    requires DefCanClassify(st, line)
    ensures |st.items| == 0 ==> k == DdMarker
  {
    if MarkerWidth(Colon, st.ceiling, line).Some? then DdMarker
    else if st.firstAsPara && g.isBlank(line) then DdBlank
    else if ContentMatch(st.indentation, line) then DdContinuation
    else if g.isBlank(line) then DdBlank
    else DdOther
  }

  /**
   * A marker line is tried first; a blank line right after a blank line is
   * part of the same blank run whatever its indentation; a continuation line
   * matches the continuation rule and a blank line the blank-line pattern.
   */
  lemma DefClassifyFacts(g: Grammar, st: DefState, line: string)
    requires DefCanClassify(st, line)
    ensures var k := DefClassify(g, st, line);
      && (k == DdMarker <==> MarkerWidth(Colon, st.ceiling, line).Some?)
      && (st.firstAsPara && g.isBlank(line) && MarkerWidth(Colon, st.ceiling, line).None? ==> k == DdBlank)
      && (k == DdContinuation ==> ContentMatch(st.indentation, line))
      && (k == DdBlank ==> g.isBlank(line))
      && (k == DdOther ==> !ContentMatch(st.indentation, line) && !g.isBlank(line))
  {
  }

  /** A new raw definition from its marker line, carrying the flag as its `first_as_para` option. */
  function NewDefinition(ceiling: nat, line: string, firstAsPara: bool): (r: (Element, nat))
    requires MarkerWidth(Colon, ceiling, line).Some?
    ensures r.1 >= 1
  {
    var w := MarkerWidth(Colon, ceiling, line).value;
    var f := FirstListLine(w, line[w..]);
    FirstListLineMeaning(w, line[w..]);
    (Element(Dd, [], Some(f.text), map[FirstAsPara := firstAsPara]), f.indentation)
  }

  /** The state after a consumed line. */
  function DefStep(g: Grammar, st: DefState, line: string, k: DefLineKind): (r: DefState)
    requires DefCanClassify(st, line) && k == DefClassify(g, st, line) && k != DdOther
    ensures |r.items| > 0
  {
    match k
    case DdMarker =>
      var (item, ind) := NewDefinition(st.ceiling, line, st.firstAsPara);
      DefState(st.items + [item], Min(3, ind - 1), ind, false)
    case DdContinuation =>
      var items := st.items[..|st.items| - 1] + [AppendValue(Last(st.items), ContinuationText(st.indentation, line) + "\n")];
      DefState(items, st.ceiling, st.indentation, false)
    case DdBlank =>
      var items := st.items[..|st.items| - 1] + [AppendValue(Last(st.items), line + "\n")];
      DefState(items, st.ceiling, st.indentation, true)
  }

  /** The definition loop, from cursor `pos` in state `st`, to its end. */
  function DefScan(g: Grammar, src: seq<string>, pos: nat, st: DefState): (r: DefScanResult)
    requires pos <= |src|
    requires pos < |src| ==> DefCanClassify(st, src[pos])
    ensures r.next == pos + |r.trace| <= |src|
    ensures r.next < |src| ==> DefCanClassify(r.final, src[r.next]) && DefClassify(g, r.final, src[r.next]) == DdOther
    decreases |src| - pos
  {
    if pos == |src| then DefScanResult(st, pos, [])
    else
      var k := DefClassify(g, st, src[pos]);
      if k == DdOther then DefScanResult(st, pos, [])
      else
        var r := DefScan(g, src, pos + 1, DefStep(g, st, src[pos], k));
        r.(trace := [k] + r.trace)
  }

  /** What the loop hands back: the definitions and the cursor. */
  function DefOutcome(g: Grammar, src: seq<string>, pos: nat, st: DefState): (seq<Element>, nat)
    requires pos <= |src|
    requires pos < |src| ==> DefCanClassify(st, src[pos])
  {
    var r := DefScan(g, src, pos, st);
    (r.final.items, r.next)
  }

  lemma DefScanConsume(g: Grammar, src: seq<string>, pos: nat, st: DefState, st': DefState)
    requires pos < |src| && DefCanClassify(st, src[pos])
    requires DefClassify(g, st, src[pos]) != DdOther
    requires st' == DefStep(g, st, src[pos], DefClassify(g, st, src[pos]))
    ensures pos + 1 < |src| ==> DefCanClassify(st', src[pos + 1])
    ensures DefOutcome(g, src, pos, st) == DefOutcome(g, src, pos + 1, st')
  {
  }

  /** One pass of the loop's body on the line at the cursor. */
  method ReadDefLine(g: Grammar, st: DefState, line: string) returns (k: DefLineKind, st': DefState)
    requires DefCanClassify(st, line)
    ensures k == DefClassify(g, st, line)
    ensures k != DdOther ==> st' == DefStep(g, st, line, k)
    ensures k == DdOther ==> st' == st
  {
    st' := st;
    if MarkerWidth(Colon, st.ceiling, line).Some? {
      var w := MarkerWidth(Colon, st.ceiling, line).value;
      var item := Element(Dd, [], None, map[FirstAsPara := st.firstAsPara]);
      var text, ind := ParseFirstListLine(w, line[w..]);
      item := item.(value := Some(text));
      k := DdMarker;
      st' := DefState(st.items + [item], Min(3, ind - 1), ind, false);
    } else if st.firstAsPara && g.isBlank(line) {
      k := DdBlank;
      st' := st.(items := st.items[..|st.items| - 1] + [AppendValue(Last(st.items), line + "\n")]);
    } else if ContentMatch(st.indentation, line) {
      var result := ContinuationText(st.indentation, line);
      k := DdContinuation;
      st' := st.(items := st.items[..|st.items| - 1] + [AppendValue(Last(st.items), result + "\n")], firstAsPara := false);
    } else if g.isBlank(line) {
      k := DdBlank;
      st' := st.(items := st.items[..|st.items| - 1] + [AppendValue(Last(st.items), line + "\n")], firstAsPara := true);
    } else {
      k := DdOther;
    }
  }

  /**
   * The definition loop itself: from the first definition line, it reads
   * marker, continuation and blank lines into the raw definitions until a
   * line it does not recognize or the end of the source. It computes exactly
   * what `DefScan` describes.
   */
  method ScanDefinitions(g: Grammar, src: seq<string>, start: nat, firstAsPara: bool) returns (items: seq<Element>, next: nat)
    requires start <= |src|
    requires start < |src| ==> DefCanClassify(DefInitial(firstAsPara), src[start])
    ensures (items, next) == DefOutcome(g, src, start, DefInitial(firstAsPara))
  {
    var st := DefInitial(firstAsPara);
    next := start;
    while next < |src|
      invariant start <= next <= |src|
      invariant next < |src| ==> DefCanClassify(st, src[next])
      invariant DefOutcome(g, src, next, st) == DefOutcome(g, src, start, DefInitial(firstAsPara))
    {
      var k, st' := ReadDefLine(g, st, src[next]);
      if k == DdOther {
        break;
      }
      DefScanConsume(g, src, next, st, st');
      st := st';
      next := next + 1;
    }
    items := st.items;
  }

  function CountDdMarkers(t: seq<DefLineKind>): nat
  {
    if t == [] then 0 else (if t[0] == DdMarker then 1 else 0) + CountDdMarkers(t[1..])
  }

  /**
   * Every definition carries its `first_as_para` option, and a
   * definition's type is `:dd`.
   */
  predicate AllDefinitions(items: seq<Element>)
  {
    forall i :: 0 <= i < |items| ==> items[i].kind == Dd && FirstAsPara in items[i].options
  }

  /**
   * What a consumed line does to the state: a marker line adds one fresh
   * definition whose `first_as_para` option is the flag as it stood, clears
   * the flag and narrows the ceiling; a continuation line clears the flag, a
   * blank line sets it; neither touches any definition but the current one.
   */
  lemma DefStepFacts(g: Grammar, st: DefState, line: string, k: DefLineKind)
    requires DefCanClassify(st, line) && k == DefClassify(g, st, line) && k != DdOther
    ensures var r := DefStep(g, st, line, k);
      && (k == DdMarker ==>
        && |r.items| == |st.items| + 1 && r.items[..|st.items|] == st.items
        && Last(r.items).kind == Dd && Last(r.items).options == map[FirstAsPara := st.firstAsPara]
        && r.ceiling == Min(3, r.indentation - 1) && !r.firstAsPara)
      && (k != DdMarker ==>
        && |r.items| == |st.items| && r.items[..|st.items| - 1] == st.items[..|st.items| - 1]
        && Last(r.items).kind == Last(st.items).kind && Last(r.items).options == Last(st.items).options
        && r.ceiling == st.ceiling && r.indentation == st.indentation
        && (r.firstAsPara <==> k == DdBlank))
  {
  }

  /** One consumed line adds a definition exactly when it is a marker line. */
  lemma DefStepCount(g: Grammar, st: DefState, line: string, k: DefLineKind)
    requires DefCanClassify(st, line) && k == DefClassify(g, st, line) && k != DdOther
    ensures |DefStep(g, st, line, k).items| == |st.items| + (if k == DdMarker then 1 else 0)
  {
  }

  /** Each consumed definition marker adds exactly one definition. */
  lemma {:induction false} DefScanCount(g: Grammar, src: seq<string>, pos: nat, st: DefState)
    requires pos <= |src| && (pos < |src| ==> DefCanClassify(st, src[pos]))
    ensures |DefScan(g, src, pos, st).final.items| == |st.items| + CountDdMarkers(DefScan(g, src, pos, st).trace)
    decreases |src| - pos
  {
    if pos < |src| {
      var k := DefClassify(g, st, src[pos]);
      if k != DdOther {
        var st' := DefStep(g, st, src[pos], k);
        var r' := DefScan(g, src, pos + 1, st');
        DefScanCount(g, src, pos + 1, st');
        DefStepCount(g, st, src[pos], k);
        assert DefScan(g, src, pos, st) == r'.(trace := [k] + r'.trace);
        assert ([k] + r'.trace)[1..] == r'.trace;
      }
    }
  }

  lemma DefStepKeeps(g: Grammar, st: DefState, line: string, k: DefLineKind)
    requires DefCanClassify(st, line) && k == DefClassify(g, st, line) && k != DdOther
    requires AllDefinitions(st.items)
    ensures AllDefinitions(DefStep(g, st, line, k).items)
  {
    var r := DefStep(g, st, line, k);
    if k == DdMarker {
      assert r.items == st.items + [Last(r.items)];
    } else {
      assert r.items == st.items[..|st.items| - 1] + [Last(r.items)];
    }
  }

  /** Every item the loop builds is a definition carrying its `first_as_para` option. */
  lemma {:induction false} DefScanAllDefinitions(g: Grammar, src: seq<string>, pos: nat, st: DefState)
    requires pos <= |src| && (pos < |src| ==> DefCanClassify(st, src[pos]))
    requires AllDefinitions(st.items)
    ensures AllDefinitions(DefScan(g, src, pos, st).final.items)
    decreases |src| - pos
  {
    if pos < |src| {
      var k := DefClassify(g, st, src[pos]);
      if k != DdOther {
        DefStepKeeps(g, st, src[pos], k);
        DefScanAllDefinitions(g, src, pos + 1, DefStep(g, st, src[pos], k));
      }
    }
  }

  /**
   * The flag at the end of the loop: set exactly when the last consumed line
   * was blank, and as it started when no line was consumed.
   */
  lemma {:induction false} DefScanFlag(g: Grammar, src: seq<string>, pos: nat, st: DefState)
    requires pos <= |src| && (pos < |src| ==> DefCanClassify(st, src[pos]))
    ensures var r := DefScan(g, src, pos, st);
      r.final.firstAsPara == if r.trace == [] then st.firstAsPara else Last(r.trace) == DdBlank
    decreases |src| - pos
  {
    if pos < |src| {
      var k := DefClassify(g, st, src[pos]);
      if k != DdOther {
        var st' := DefStep(g, st, src[pos], k);
        DefStepFacts(g, st, src[pos], k);
        DefScanFlag(g, src, pos + 1, st');
        var t' := DefScan(g, src, pos + 1, st').trace;
        assert DefScan(g, src, pos, st).trace == [k] + t';
      }
    }
  }

  /** An empty line in a definition is a blank line. */
  lemma EmptyLineIsBlank(g: Grammar, st: DefState)
    requires |st.items| > 0 && st.indentation >= 1 && g.isBlank("")
    ensures DefClassify(g, st, "") == DdBlank
  {
    assert !ContentMatch(st.indentation, "") by {
      assert Units(st.indentation / 4 + 1, "").None?;
    }
  }

  /** Two spaces right after a blank line go on with the blank run. */
  lemma SpacesInRunAreBlank(g: Grammar, st: DefState)
    requires |st.items| > 0 && st.firstAsPara && g.isBlank("  ")
    ensures DefClassify(g, st, "  ") == DdBlank
  {
    assert LeadingSpaces("  ") == 2 by {
      assert "  "[1..] == " " && " "[1..] == "";
    }
  }

  /**
   * The end of the example below: one more line of the blank run, then a
   * marker line, which opens a definition marked `first_as_para`.
   */
  lemma RunThenMarker(g: Grammar, src: seq<string>, st: DefState)
    requires |src| == 4 && src[2] == "  " && src[3] == ": b"
    requires |st.items| == 1 && st.firstAsPara && g.isBlank("  ")
    ensures var r := DefOutcome(g, src, 2, st);
      r.1 == 4 && |r.0| == 2 && r.0[1].options == map[FirstAsPara := true]
  {
    SpacesInRunAreBlank(g, st);
    var st3 := DefStep(g, st, src[2], DdBlank);
    DefStepFacts(g, st, src[2], DdBlank);
    ColonAtStart(st3.ceiling, "b");
    assert src[3] == ": " + "b";
    DefScanConsume(g, src, 2, st, st3);
    var st4 := DefStep(g, st3, src[3], DdMarker);
    DefStepFacts(g, st3, src[3], DdMarker);
    DefScanConsume(g, src, 3, st3, st4);
    assert DefOutcome(g, src, 4, st4) == (st4.items, 4);
  }

  /**
   * A blank run stays one run: after `: a` and an empty line, an indented
   * blank line is still part of the run rather than a continuation line,
   * so the flag stays set and the definition that follows is marked
   * `first_as_para`.
   */
  lemma BlankRunKeepsFlag(g: Grammar)
    requires g.isBlank("") && g.isBlank("  ")
    ensures var r := DefOutcome(g, [": a", "", "  ", ": b"], 0, DefInitial(false));
      r.1 == 4 && |r.0| == 2 && r.0[1].options == map[FirstAsPara := true]
  {
    var src := [": a", "", "  ", ": b"];
    var st0 := DefInitial(false);
    ColonAtStart(3, "a");
    assert src[0] == ": " + "a";
    var st1 := DefStep(g, st0, src[0], DdMarker);
    DefStepFacts(g, st0, src[0], DdMarker);
    DefScanConsume(g, src, 0, st0, st1);
    EmptyLineIsBlank(g, st1);
    var st2 := DefStep(g, st1, src[1], DdBlank);
    DefStepFacts(g, st1, src[1], DdBlank);
    DefScanConsume(g, src, 1, st1, st2);
    RunThenMarker(g, src, st2);
  }
}
