/**
 * The scanning loop of the ordered/unordered list parser: it consumes the
 * source line by line and builds the raw, unfinalized list items.
 */
module ListScan {
  import opened Elements
  import opened Lines
  import opened FirstLine
  import opened Continuation
  import opened Markers

  /** What the loop makes of a line, in the order the tests are tried. */
  datatype LineKind =
    | HrLine                          // a horizontal rule: stop, not consumed
    | MarkerLine                      // a new item
    | ContinuationLine(reparsed: bool) // added to the item; `reparsed` when the nested-list check ran
    | BlankLine                       // added to the item
    | EobLine                         // end-of-block marker: consumed, then stop
    | OtherLine                       // anything else: stop, not consumed

  /**
   * The loop's local state: the items so far (the last is the current one),
   * the ceiling on a marker's leading spaces, the current item's indentation
   * (which fixes its continuation and strip rules), whether the
   * nested-list check is switched off for the current item, and whether the
   * last line consumed was blank. The source's blank-line pattern takes a
   * whole run of blank lines at once; a blank line met while `inBlank` holds
   * belongs to that run.
   */
  datatype ListState = ListState(items: seq<Element>, ceiling: nat, indentation: nat, nested: bool, inBlank: bool)

  /** The scanner's result: the state at the end, the cursor, whether an end-of-block marker ended it, and the kinds of the consumed lines. */
  datatype ListScanResult = ListScanResult(final: ListState, next: nat, eob: bool, trace: seq<LineKind>)

  function InitialState(): ListState
  {
    ListState([], 3, 0, false, false)
  }

  /**
   * Before the first item only a horizontal rule or a marker can be met:
   * the cursor starts on a line the list-start pattern accepts.
   */
  predicate CanClassify(g: Grammar, shape: Shape, st: ListState, line: string)
  {
    |st.items| > 0 || g.isHr(line) || MarkerWidth(shape, st.ceiling, line).Some?
  }

  function Classify(g: Grammar, shape: Shape, st: ListState, line: string): (k: LineKind)
    requires CanClassify(g, shape, st, line)
    ensures |st.items| == 0 ==> k == HrLine || k == MarkerLine
  {
    if g.isHr(line) then HrLine
    else if MarkerWidth(shape, st.ceiling, line).Some? then MarkerLine
    else if st.inBlank && g.isBlank(line) then BlankLine
    else if ContentMatch(st.indentation, line) then
      ContinuationLine(!st.nested && IsListStart(ContinuationText(st.indentation, line)))
    else if g.isBlank(line) then BlankLine
    else if g.isEob(line) then EobLine
    else OtherLine
  }

  /**
   * A horizontal rule always stops the loop, a marker line is tried before
   * the continuation rule, a blank line right after a blank line is part of
   * the same blank run whatever its indentation, and the nested-list check
   * only runs while it is switched on.
   */
  lemma ClassifyFacts(g: Grammar, shape: Shape, st: ListState, line: string)
    requires CanClassify(g, shape, st, line)
    ensures var k := Classify(g, shape, st, line);
      && (k == HrLine <==> g.isHr(line))
      && (k == MarkerLine <==> !g.isHr(line) && MarkerWidth(shape, st.ceiling, line).Some?)
      && (k.ContinuationLine? && k.reparsed ==> !st.nested)
      && (st.inBlank && g.isBlank(line) && !g.isHr(line) && MarkerWidth(shape, st.ceiling, line).None? ==> k == BlankLine)
      && (k == EobLine ==> g.isEob(line))
  {
  }

  predicate Consumes(k: LineKind)
  {
    k.MarkerLine? || k.ContinuationLine? || k.BlankLine?
  }

  /** A new raw item from its marker line. */
  function NewItem(shape: Shape, ceiling: nat, line: string): (r: (Element, nat))
    requires MarkerWidth(shape, ceiling, line).Some?
    ensures r.1 >= 1
  {
    var w := MarkerWidth(shape, ceiling, line).value;
    var f := FirstListLine(w, line[w..]);
    FirstListLineMeaning(w, line[w..]);
    (Element(Li, [], Some(f.text), map[]), f.indentation)
  }

  /** The current item after the nested-list check: its buffer so far is parsed as blocks, a lone paragraph is kept and the buffer restarted, anything else is thrown away. */
  function Reparse(g: Grammar, item: Element): (r: Element)
    ensures r.kind == item.kind && r.options == item.options
  {
    var cs := item.children + g.parseBlocks(ValueOf(item));
    if |cs| == 1 && cs[0].kind == P then item.(children := cs, value := Some(""))
    else item.(children := [])
  }

  /** The state after a consumed line. */
  function Step(g: Grammar, shape: Shape, st: ListState, line: string, k: LineKind): (r: ListState)
    requires CanClassify(g, shape, st, line) && k == Classify(g, shape, st, line) && Consumes(k)
    ensures |r.items| > 0
  {
    match k
    case MarkerLine =>
      var (item, ind) := NewItem(shape, st.ceiling, line);
      ListState(st.items + [item], Min(3, ind - 1), ind, false, false)
    case ContinuationLine(re) =>
      var cur := if re then Reparse(g, Last(st.items)) else Last(st.items);
      var items := st.items[..|st.items| - 1] + [AppendValue(cur, ContinuationText(st.indentation, line) + "\n")];
      ListState(items, st.ceiling, st.indentation, st.nested || re, false)
    case BlankLine =>
      var items := st.items[..|st.items| - 1] + [AppendValue(Last(st.items), line + "\n")];
      ListState(items, st.ceiling, st.indentation, true, true)
  }

  /**
   * What a consumed line does to the state: a marker line adds one fresh
   * item and narrows the marker ceiling to `min(3, indentation - 1)` of the
   * new item, with the nested-list check switched back on; a continuation or
   * blank line changes only the current item's buffer (after the one-time
   * re-parse when the nested-list check runs) and switches the check off.
   */
  lemma StepFacts(g: Grammar, shape: Shape, st: ListState, line: string, k: LineKind)
    requires CanClassify(g, shape, st, line) && k == Classify(g, shape, st, line) && Consumes(k)
    ensures var r := Step(g, shape, st, line, k);
      && (k == MarkerLine ==>
        && |r.items| == |st.items| + 1 && r.items[..|st.items|] == st.items
        && Last(r.items).kind == Li && Last(r.items).children == []
        && r.ceiling == Min(3, r.indentation - 1) && !r.nested)
      && (r.inBlank <==> k == BlankLine)
      && (k != MarkerLine ==>
        && |r.items| == |st.items| && r.items[..|st.items| - 1] == st.items[..|st.items| - 1]
        && r.ceiling == st.ceiling && r.indentation == st.indentation
        && Last(r.items).kind == Last(st.items).kind)
      && (k == BlankLine ==>
        r.nested && Last(r.items) == AppendValue(Last(st.items), line + "\n"))
      && (k == ContinuationLine(false) ==>
        r.nested == st.nested
        && Last(r.items) == AppendValue(Last(st.items), ContinuationText(st.indentation, line) + "\n"))
      && (k == ContinuationLine(true) ==>
        r.nested
        && Last(r.items) == AppendValue(Reparse(g, Last(st.items)), ContinuationText(st.indentation, line) + "\n"))
  {
  }

  /** The scanning loop, from cursor `pos` in state `st`, to its end. */
  function Scan(g: Grammar, shape: Shape, src: seq<string>, pos: nat, st: ListState): (r: ListScanResult)
    requires pos <= |src|
    requires pos < |src| ==> CanClassify(g, shape, st, src[pos])
    ensures r.next == pos + |r.trace| <= |src|
    ensures r.eob <==> |r.trace| > 0 && Last(r.trace) == EobLine
    decreases |src| - pos
  {
    if pos == |src| then ListScanResult(st, pos, false, [])
    else
      var k := Classify(g, shape, st, src[pos]);
      if k == EobLine then ListScanResult(st, pos + 1, true, [EobLine])
      else if !Consumes(k) then ListScanResult(st, pos, false, [])
      else
        var st' := Step(g, shape, st, src[pos], k);
        var r := Scan(g, shape, src, pos + 1, st');
        assert k != EobLine && (r.trace == [] || Last([k] + r.trace) == Last(r.trace));
        r.(trace := [k] + r.trace)
  }

  /** One unfolding of the loop over a consumed line. */
  lemma ScanTail(g: Grammar, shape: Shape, src: seq<string>, pos: nat, st: ListState)
    requires pos < |src| && CanClassify(g, shape, st, src[pos])
    requires Consumes(Classify(g, shape, st, src[pos]))
    ensures var k := Classify(g, shape, st, src[pos]);
      var st' := Step(g, shape, st, src[pos], k);
      && (pos + 1 < |src| ==> CanClassify(g, shape, st', src[pos + 1]))
      && Scan(g, shape, src, pos, st) == Scan(g, shape, src, pos + 1, st').(trace := [k] + Scan(g, shape, src, pos + 1, st').trace)
  {
  }

  /** The loop stops at a line it does not consume. */
  lemma ScanHalt(g: Grammar, shape: Shape, src: seq<string>, pos: nat, st: ListState)
    requires pos < |src| && CanClassify(g, shape, st, src[pos])
    requires !Consumes(Classify(g, shape, st, src[pos]))
    ensures Scan(g, shape, src, pos, st) ==
      if Classify(g, shape, st, src[pos]) == EobLine then ListScanResult(st, pos + 1, true, [EobLine])
      else ListScanResult(st, pos, false, [])
  {
  }

  function CountMarkers(t: seq<LineKind>): nat
  {
    if t == [] then 0 else (if t[0] == MarkerLine then 1 else 0) + CountMarkers(t[1..])
  }

  predicate AllItems(items: seq<Element>)
  {
    forall i :: 0 <= i < |items| ==> items[i].kind == Li
  }

  /** Each consumed marker line adds exactly one item. */
  lemma {:induction false} ScanCount(g: Grammar, shape: Shape, src: seq<string>, pos: nat, st: ListState)
    requires pos <= |src| && (pos < |src| ==> CanClassify(g, shape, st, src[pos]))
    ensures |Scan(g, shape, src, pos, st).final.items| == |st.items| + CountMarkers(Scan(g, shape, src, pos, st).trace)
    decreases |src| - pos
  {
    if pos < |src| {
      var k := Classify(g, shape, st, src[pos]);
      if Consumes(k) {
        var st' := Step(g, shape, st, src[pos], k);
        var t' := Scan(g, shape, src, pos + 1, st').trace;
        ScanCount(g, shape, src, pos + 1, st');
        assert Scan(g, shape, src, pos, st).trace == [k] + t';
        assert ([k] + t')[1..] == t';
      }
    }
  }

  /** A consumed line changes no item before the current one. */
  lemma StepKeepsPrefix(g: Grammar, shape: Shape, st: ListState, line: string, k: LineKind)
    requires CanClassify(g, shape, st, line) && k == Classify(g, shape, st, line) && Consumes(k)
    ensures |Step(g, shape, st, line, k).items| >= |st.items|
    ensures forall i :: 0 <= i < |st.items| - 1 ==> Step(g, shape, st, line, k).items[i] == st.items[i]
  {
  }

  /** The items before the current one are never touched again. */
  lemma {:induction false} ScanKeepsPrefix(g: Grammar, shape: Shape, src: seq<string>, pos: nat, st: ListState)
    requires pos <= |src| && (pos < |src| ==> CanClassify(g, shape, st, src[pos]))
    ensures |Scan(g, shape, src, pos, st).final.items| >= |st.items|
    ensures forall i :: 0 <= i < |st.items| - 1 ==> Scan(g, shape, src, pos, st).final.items[i] == st.items[i]
    decreases |src| - pos
  {
    if pos < |src| {
      var k := Classify(g, shape, st, src[pos]);
      if Consumes(k) {
        StepKeepsPrefix(g, shape, st, src[pos], k);
        ScanKeepsPrefix(g, shape, src, pos + 1, Step(g, shape, st, src[pos], k));
      }
    }
  }

  /** A consumed line keeps every item a list item. */
  lemma StepAllItems(g: Grammar, shape: Shape, st: ListState, line: string, k: LineKind)
    requires CanClassify(g, shape, st, line) && k == Classify(g, shape, st, line) && Consumes(k)
    requires AllItems(st.items)
    ensures AllItems(Step(g, shape, st, line, k).items)
  {
    var r := Step(g, shape, st, line, k);
    if k == MarkerLine {
      assert r.items == st.items + [Last(r.items)];
    } else {
      assert r.items == st.items[..|st.items| - 1] + [Last(r.items)];
    }
  }

  /** Every item the loop builds is a list item. */
  lemma {:induction false} ScanAllItems(g: Grammar, shape: Shape, src: seq<string>, pos: nat, st: ListState)
    requires pos <= |src| && (pos < |src| ==> CanClassify(g, shape, st, src[pos]))
    requires AllItems(st.items)
    ensures AllItems(Scan(g, shape, src, pos, st).final.items)
    decreases |src| - pos
  {
    if pos < |src| {
      var k := Classify(g, shape, st, src[pos]);
      if Consumes(k) {
        StepAllItems(g, shape, st, src[pos], k);
        ScanAllItems(g, shape, src, pos + 1, Step(g, shape, st, src[pos], k));
      }
    }
  }

  /** Every entry but the last is a marker, continuation or blank line. */
  predicate ConsumedBeforeLast(t: seq<LineKind>)
    decreases |t|
  {
    |t| <= 1 || (Consumes(t[0]) && ConsumedBeforeLast(t[1..]))
  }

  /** Every consumed line but the last is a marker, continuation or blank line. */
  lemma {:induction false} ScanConsumes(g: Grammar, shape: Shape, src: seq<string>, pos: nat, st: ListState)
    requires pos <= |src| && (pos < |src| ==> CanClassify(g, shape, st, src[pos]))
    ensures ConsumedBeforeLast(Scan(g, shape, src, pos, st).trace)
    decreases |src| - pos
  {
    if pos < |src| {
      var k := Classify(g, shape, st, src[pos]);
      if Consumes(k) {
        var st' := Step(g, shape, st, src[pos], k);
        var t' := Scan(g, shape, src, pos + 1, st').trace;
        ScanConsumes(g, shape, src, pos + 1, st');
        assert Scan(g, shape, src, pos, st).trace == [k] + t';
        assert ([k] + t')[1..] == t';
      }
    }
  }

  /** The loop never consumes a horizontal rule. */
  lemma {:induction false} ScanNoHr(g: Grammar, shape: Shape, src: seq<string>, pos: nat, st: ListState)
    requires pos <= |src| && (pos < |src| ==> CanClassify(g, shape, st, src[pos]))
    ensures forall i :: pos <= i < Scan(g, shape, src, pos, st).next ==> !g.isHr(src[i])
    decreases |src| - pos
  {
    if pos < |src| {
      var k := Classify(g, shape, st, src[pos]);
      if Consumes(k) {
        ScanNoHr(g, shape, src, pos + 1, Step(g, shape, st, src[pos], k));
      }
    }
  }

  /**
   * Unless the source ran out or an end-of-block marker was met, the line at
   * the cursor is a horizontal rule or a line the loop does not recognize.
   */
  lemma {:induction false} ScanStops(g: Grammar, shape: Shape, src: seq<string>, pos: nat, st: ListState)
    requires pos <= |src| && (pos < |src| ==> CanClassify(g, shape, st, src[pos]))
    ensures var r := Scan(g, shape, src, pos, st);
      && (r.next < |src| ==> CanClassify(g, shape, r.final, src[r.next]))
      && (!r.eob && r.next < |src| ==>
            var k := Classify(g, shape, r.final, src[r.next]); k == HrLine || k == OtherLine)
    decreases |src| - pos
  {
    if pos < |src| {
      var k := Classify(g, shape, st, src[pos]);
      if Consumes(k) {
        ScanStops(g, shape, src, pos + 1, Step(g, shape, st, src[pos], k));
      }
    }
  }

  /**
   * The ceiling on a marker's leading spaces is at most 3, and once an item
   * exists it is `min(3, indentation - 1)` for the current item's indentation.
   */
  predicate CeilingRule(st: ListState)
  {
    st.ceiling <= 3 && (|st.items| > 0 ==> st.ceiling == Min(3, st.indentation - 1))
  }

  lemma StepCeiling(g: Grammar, shape: Shape, st: ListState, line: string, k: LineKind)
    requires CanClassify(g, shape, st, line) && k == Classify(g, shape, st, line) && Consumes(k)
    requires CeilingRule(st)
    ensures CeilingRule(Step(g, shape, st, line, k))
  {
  }

  /** The loop keeps the ceiling rule. */
  lemma {:induction false} ScanCeiling(g: Grammar, shape: Shape, src: seq<string>, pos: nat, st: ListState)
    requires pos <= |src| && (pos < |src| ==> CanClassify(g, shape, st, src[pos]))
    requires CeilingRule(st)
    ensures CeilingRule(Scan(g, shape, src, pos, st).final)
    decreases |src| - pos
  {
    if pos < |src| {
      var k := Classify(g, shape, st, src[pos]);
      if Consumes(k) {
        StepCeiling(g, shape, st, src[pos], k);
        ScanCeiling(g, shape, src, pos + 1, Step(g, shape, st, src[pos], k));
      }
    }
  }

  /** A consumed line that switches the nested-list check off for the current item. */
  predicate SwitchesOff(k: LineKind)
  {
    k == BlankLine || k == ContinuationLine(true)
  }

  /** Some marker line lies strictly between positions `i` and `j` of the trace. */
  predicate MarkerBetween(t: seq<LineKind>, i: int, j: int)
  {
    exists m :: i < m < j && 0 <= m < |t| && t[m] == MarkerLine
  }

  /**
   * The nested-list check runs at most once per item, and never after a
   * blank line of the same item: between a line that switched it off and a
   * later run of it there is always a new marker; and if it was off when the
   * trace started, a marker comes before its first run.
   */
  predicate NestedOnce(t: seq<LineKind>, offAtStart: bool)
  {
    && (forall j :: 0 <= j < |t| && offAtStart && t[j] == ContinuationLine(true) ==> MarkerBetween(t, -1, j))
    && (forall i, j {:trigger t[i], t[j]} :: 0 <= i < j < |t| && SwitchesOff(t[i]) && t[j] == ContinuationLine(true) ==> MarkerBetween(t, i, j))
  }

  /** Whether the nested-list check is off after a consumed line of the given kind. */
  function NestedAfter(off: bool, k: LineKind): bool
  {
    if k == MarkerLine then false else off || SwitchesOff(k)
  }

  /** A trace in which the nested-list check runs only while it is switched on. */
  predicate Admissible(t: seq<LineKind>, off: bool)
    decreases |t|
  {
    t == [] || ((t[0] == ContinuationLine(true) ==> !off) && Admissible(t[1..], NestedAfter(off, t[0])))
  }

  /** The scanner's trace respects the switch. */
  lemma {:induction false} ScanAdmissible(g: Grammar, shape: Shape, src: seq<string>, pos: nat, st: ListState)
    requires pos <= |src| && (pos < |src| ==> CanClassify(g, shape, st, src[pos]))
    ensures Admissible(Scan(g, shape, src, pos, st).trace, st.nested)
    decreases |src| - pos
  {
    if pos < |src| {
      var k := Classify(g, shape, st, src[pos]);
      if Consumes(k) {
        var st' := Step(g, shape, st, src[pos], k);
        ScanAdmissible(g, shape, src, pos + 1, st');
        var t' := Scan(g, shape, src, pos + 1, st').trace;
        assert st'.nested == NestedAfter(st.nested, k);
        assert ([k] + t')[1..] == t';
      }
    }
  }

  /** A marker in the tail of a trace is a marker in the trace, one position on. */
  lemma MarkerShift(t: seq<LineKind>, a: int, b: int)
    requires t != [] && MarkerBetween(t[1..], a, b)
    ensures MarkerBetween(t, a + 1, b + 1) && MarkerBetween(t, a, b + 1)
  {
    var m :| a < m < b && 0 <= m < |t[1..]| && t[1..][m] == MarkerLine;
    assert t[m + 1] == MarkerLine;
  }

  /** In a trace that respects the switch, the check runs at most once per item. */
  lemma {:induction false} AdmissibleNestedOnce(t: seq<LineKind>, off: bool)
    requires Admissible(t, off)
    ensures NestedOnce(t, off)
    decreases |t|
  {
    if t != [] {
      var k := t[0];
      var t' := t[1..];
      AdmissibleNestedOnce(t', NestedAfter(off, k));
      forall j | 0 <= j < |t| && off && t[j] == ContinuationLine(true)
        ensures MarkerBetween(t, -1, j)
      {
        if k != MarkerLine {
          assert t'[j - 1] == ContinuationLine(true);
          MarkerShift(t, -1, j - 1);
        } else {
          assert 0 <= 0 < |t| && t[0] == MarkerLine;
        }
      }
      forall i, j | 0 <= i < j < |t| && SwitchesOff(t[i]) && t[j] == ContinuationLine(true)
        ensures MarkerBetween(t, i, j)
      {
        assert t'[j - 1] == ContinuationLine(true);
        if i == 0 {
          MarkerShift(t, -1, j - 1);
        } else {
          assert t[i] == t'[i - 1];
          MarkerShift(t, i - 1, j - 1);
        }
      }
    }
  }

  /**
   * The nested-list check runs at most once per item and never after a blank
   * line of that item.
   */
  lemma ScanNestedOnce(g: Grammar, shape: Shape, src: seq<string>, pos: nat, st: ListState)
    requires pos <= |src| && (pos < |src| ==> CanClassify(g, shape, st, src[pos]))
    ensures NestedOnce(Scan(g, shape, src, pos, st).trace, st.nested)
  {
    ScanAdmissible(g, shape, src, pos, st);
    AdmissibleNestedOnce(Scan(g, shape, src, pos, st).trace, st.nested);
  }

  /** What the scanner hands back: the items, the cursor and the end-of-block flag. */
  datatype ScanEnd = ScanEnd(items: seq<Element>, next: nat, eob: bool)

  function Outcome(g: Grammar, shape: Shape, src: seq<string>, pos: nat, st: ListState): ScanEnd
    requires pos <= |src|
    requires pos < |src| ==> CanClassify(g, shape, st, src[pos])
  {
    var r := Scan(g, shape, src, pos, st);
    ScanEnd(r.final.items, r.next, r.eob)
  }

  lemma ScanConsume(g: Grammar, shape: Shape, src: seq<string>, pos: nat, st: ListState, st': ListState)
    requires pos < |src| && CanClassify(g, shape, st, src[pos])
    requires Consumes(Classify(g, shape, st, src[pos]))
    requires st' == Step(g, shape, st, src[pos], Classify(g, shape, st, src[pos]))
    ensures pos + 1 < |src| ==> CanClassify(g, shape, st', src[pos + 1])
    ensures Outcome(g, shape, src, pos, st) == Outcome(g, shape, src, pos + 1, st')
  {
  }

  /** The loop's end: at a line it does not consume, or at the end of the source. */
  lemma OutcomeHalt(g: Grammar, shape: Shape, src: seq<string>, pos: nat, st: ListState)
    requires pos <= |src| && (pos < |src| ==> CanClassify(g, shape, st, src[pos]))
    requires pos < |src| ==> !Consumes(Classify(g, shape, st, src[pos]))
    ensures pos == |src| ==> Outcome(g, shape, src, pos, st) == ScanEnd(st.items, pos, false)
    ensures pos < |src| && Classify(g, shape, st, src[pos]) == EobLine ==> Outcome(g, shape, src, pos, st) == ScanEnd(st.items, pos + 1, true)
    ensures pos < |src| && Classify(g, shape, st, src[pos]) != EobLine ==> Outcome(g, shape, src, pos, st) == ScanEnd(st.items, pos, false)
  {
  }

  /** A new item from its marker line, built as the loop builds it. */
  method OpenItem(shape: Shape, ceiling: nat, line: string) returns (item: Element, ind: nat)
    requires MarkerWidth(shape, ceiling, line).Some?
    ensures (item, ind) == NewItem(shape, ceiling, line)
  {
    var w := MarkerWidth(shape, ceiling, line).value;
    var text;
    text, ind := ParseFirstListLine(w, line[w..]);
    item := Element(Li, [], Some(text), map[]);
  }

  /**
   * One pass of the loop's body: the tests on the line at the cursor, in the
   * order the loop tries them, and the update of the items and of the
   * per-item rules when the line is consumed.
   */
  method ReadLine(g: Grammar, shape: Shape, st: ListState, line: string) returns (k: LineKind, st': ListState)
    requires CanClassify(g, shape, st, line)
    ensures k == Classify(g, shape, st, line)
    ensures Consumes(k) ==> st' == Step(g, shape, st, line, k)
    ensures !Consumes(k) ==> st' == st
  {
    st' := st;
    if g.isHr(line) {
      k := HrLine;
    } else if MarkerWidth(shape, st.ceiling, line).Some? {
      var item, ind := OpenItem(shape, st.ceiling, line);
      k := MarkerLine;
      st' := ListState(st.items + [item], Min(3, ind - 1), ind, false, false);
    } else if st.inBlank && g.isBlank(line) {
      k := BlankLine;
      st' := st.(items := st.items[..|st.items| - 1] + [AppendValue(Last(st.items), line + "\n")], nested := true);
    } else if ContentMatch(st.indentation, line) {
      var result := ContinuationText(st.indentation, line);
      var item := Last(st.items);
      var nested := st.nested;
      k := ContinuationLine(false);
      if !nested && IsListStart(result) {
        item := Reparse(g, item);
        nested := true;
        k := ContinuationLine(true);
      }
      st' := st.(items := st.items[..|st.items| - 1] + [AppendValue(item, result + "\n")], nested := nested, inBlank := false);
    } else if g.isBlank(line) {
      k := BlankLine;
      st' := st.(items := st.items[..|st.items| - 1] + [AppendValue(Last(st.items), line + "\n")], nested := true, inBlank := true);
    } else if g.isEob(line) {
      k := EobLine;
    } else {
      k := OtherLine;
    }
  }

  /**
   * One pass of the loop's body: it classifies the line at the cursor and
   * either consumes it, the rest of the loop then computing the same outcome
   * from the next line, or it tells why the loop stops there.
   */
  method ScanLine(g: Grammar, shape: Shape, src: seq<string>, next: nat, st: ListState) returns (k: LineKind, st': ListState)
    requires next < |src| && CanClassify(g, shape, st, src[next])
    ensures Consumes(k) ==> next + 1 < |src| ==> CanClassify(g, shape, st', src[next + 1])
    ensures Consumes(k) ==> Outcome(g, shape, src, next, st) == Outcome(g, shape, src, next + 1, st')
    ensures !Consumes(k) ==> Outcome(g, shape, src, next, st) == ScanEnd(st.items, if k == EobLine then next + 1 else next, k == EobLine)
  {
    k, st' := ReadLine(g, shape, st, src[next]);
    if Consumes(k) {
      ScanConsume(g, shape, src, next, st, st');
    } else {
      OutcomeHalt(g, shape, src, next, st);
    }
  }

  /**
   * The scanning loop itself: from the list's first line, it reads marker,
   * continuation and blank lines into the raw items until a horizontal rule,
   * an end-of-block marker, a line it does not recognize or the end of the
   * source. It computes exactly what `Scan` describes.
   */
  method ScanList(g: Grammar, shape: Shape, src: seq<string>, start: nat) returns (items: seq<Element>, next: nat, eob: bool)
    requires start <= |src|
    requires start < |src| ==> CanClassify(g, shape, InitialState(), src[start])
    ensures ScanEnd(items, next, eob) == Outcome(g, shape, src, start, InitialState())
  {
    var st := InitialState();
    next := start;
    while next < |src|
      invariant start <= next <= |src|
      invariant next < |src| ==> CanClassify(g, shape, st, src[next])
      invariant Outcome(g, shape, src, next, st) == Outcome(g, shape, src, start, InitialState())
    {
      var k, st' := ScanLine(g, shape, src, next, st);
      if !Consumes(k) {
        items, eob := st.items, k == EobLine;
        if eob {
          next := next + 1;
        }
        return;
      }
      st := st';
      next := next + 1;
    }
    OutcomeHalt(g, shape, src, next, st);
    items, eob := st.items, false;
  }
}
