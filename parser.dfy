/**
 * The two list parsers as methods of the block parser: each works on the
 * parser's source cursor and on the children of the element being built,
 * and either declines, changing nothing, or consumes lines and attaches its
 * list to the tree.
 */
module ListParsers {
  import opened Elements
  import opened Lines
  import opened Markers
  import opened ListScan
  import opened ListFinalize
  import opened DefinitionScan
  import opened DefinitionList
  import opened FirstLine
  import opened Continuation

  /** Whether the parser accepted the construct, the tree's children afterwards, and the cursor afterwards. */
  datatype ParseResult = ParseResult(accepted: bool, tree: seq<Element>, pos: nat)

  /** The unordered pattern is tried first; otherwise the line starts an ordered list. */
  function ListShape(line: string): Shape
  {
    if MarkerWidth(Bullet, 3, line).Some? then Bullet else Ordinal
  }

  function ListKind(shape: Shape): Kind
  {
    if shape == Bullet then Ul else Ol
  }

  /** The blank line the list parser adds after its list, if any. */
  function ListTail(g: Grammar, items: seq<Element>, eob: bool): seq<Element>
  {
    var held := HeldTrailing(g, items, eob, |items|);
    if held.Some? && !eob then [held.value] else []
  }

  /** The new list, the blank line that follows it (if any), and the cursor after the loop. */
  datatype BuiltList = BuiltList(list: Element, tail: seq<Element>, next: nat)

  function ListParts(g: Grammar, src: seq<string>, pos: nat): BuiltList
    requires pos < |src| && IsListStart(src[pos])
  {
    var shape := ListShape(src[pos]);
    var ScanEnd(items, next, eob) := ListScan.Outcome(g, shape, src, pos, InitialState());
    BuiltList(Element(ListKind(shape), FinalizedItems(g, items, eob, |items|), None, map[]), ListTail(g, items, eob), next)
  }

  /**
   * The ordered/unordered list parser on the tree's children `tree` with
   * the cursor at `pos`, on a line that starts a list.
   */
  function ListResult(g: Grammar, src: seq<string>, pos: nat, tree: seq<Element>): ParseResult
    requires pos < |src| && IsListStart(src[pos])
  {
    if |tree| > 0 && Last(tree).kind == P then ParseResult(false, tree, pos)
    else
      var b := ListParts(g, src, pos);
      ParseResult(true, tree + [b.list] + b.tail, b.next)
  }

  /** The scanning loop, then the finalization pass. */
  method BuildList(g: Grammar, src: seq<string>, pos: nat) returns (b: BuiltList)
    requires pos < |src| && IsListStart(src[pos])
    ensures b == ListParts(g, src, pos)
  {
    var shape := if MarkerWidth(Bullet, 3, src[pos]).Some? then Bullet else Ordinal;
    var items, next, eob := ScanList(g, shape, src, pos);
    var done, last := FinalizeList(g, items, eob);
    var tail := [];
    if last.Some? && !eob {
      tail := [last.value];
    }
    b := BuiltList(Element(if shape == Bullet then Ul else Ol, done, None, map[]), tail, next);
  }

  /** The raw entries of the new definition list: the terms, then the raw definitions. */
  function RawEntries(g: Grammar, src: seq<string>, pos: nat, p: Popped): seq<Element>
    requires pos < |src| && MarkerWidth(Colon, 3, src[pos]).Some?
  {
    Terms(TermLines(p.para)) + DefOutcome(g, src, pos, DefInitial(p.firstAsPara)).0
  }

  /** The new list's finalized entries, the blank line it holds, and the cursor after the loop. */
  datatype Definitions = Definitions(entries: seq<Element>, held: Option<Element>, next: nat)

  function BuiltDefinitions(g: Grammar, src: seq<string>, pos: nat, p: Popped): Definitions
    requires pos < |src| && MarkerWidth(Colon, 3, src[pos]).Some?
  {
    var entries := RawEntries(g, src, pos, p);
    Definitions(FinalizedEntries(g, entries), DefHeld(g, entries, |entries|), DefOutcome(g, src, pos, DefInitial(p.firstAsPara)).1)
  }

  /**
   * The definition-list parser on the tree's children `tree` with the cursor
   * at `pos`, on a line that starts a definition.
   */
  function DefinitionListResult(g: Grammar, src: seq<string>, pos: nat, tree: seq<Element>): ParseResult
    requires pos < |src| && MarkerWidth(Colon, 3, src[pos]).Some?
  {
    if !Accepts(tree) then ParseResult(false, tree, pos)
    else
      var p := PopTail(tree);
      var d := BuiltDefinitions(g, src, pos, p);
      ParseResult(true, Attach(p.rest, Element(Dl, d.entries, None, map[]), d.held), d.next)
  }

  /** The terms, the definition loop and the finalization loop, one after the other. */
  method BuildDefinitions(g: Grammar, src: seq<string>, pos: nat, para: Element, firstAsPara: bool)
    returns (done: seq<Element>, last: Option<Element>, next: nat)
    requires pos < |src| && MarkerWidth(Colon, 3, src[pos]).Some?
    ensures Definitions(done, last, next) == BuiltDefinitions(g, src, pos, Popped([], para, firstAsPara))
  {
    var dts := BuildTerms(para);
    var dds;
    dds, next := ScanDefinitions(g, src, pos, firstAsPara);
    assert dts + dds == RawEntries(g, src, pos, Popped([], para, firstAsPara));
    done, last := FinalizeDefinitions(g, dts + dds);
  }

  /**
   * The block parser's state as far as the list parsers use it: the grammar
   * it was built with, the source lines, the cursor, and the children of the
   * element being built.
   */
  class KramdownParser {
    const grammar: Grammar
    const src: seq<string>
    var pos: nat
    var tree: seq<Element>

    predicate Valid()
      reads this
    {
      pos <= |src|
    }

    constructor (grammar: Grammar, src: seq<string>)
      ensures Valid()
      ensures this.grammar == grammar && this.src == src && pos == 0 && tree == []
    {
      this.grammar := grammar;
      this.src := src;
      pos := 0;
      tree := [];
    }

    /** Parse the ordered or unordered list at the cursor. */
    method ParseList() returns (ok: bool)
      requires Valid() && pos < |src| && IsListStart(src[pos])
      modifies this
      ensures Valid()
      ensures ParseResult(ok, tree, pos) == ListResult(grammar, src, old(pos), old(tree))
    {
      if |tree| > 0 && tree[|tree| - 1].kind == P {
        return false;
      }
      var b := BuildList(grammar, src, pos);
      tree := tree + [b.list] + b.tail;
      pos := b.next;
      ok := true;
    }

    /** Parse the definition list at the cursor. */
    method ParseDefinitionList() returns (ok: bool)
      requires Valid() && pos < |src| && MarkerWidth(Colon, 3, src[pos]).Some?
      modifies this
      ensures Valid()
      ensures ParseResult(ok, tree, pos) == DefinitionListResult(grammar, src, old(pos), old(tree))
    {
      if !Accepts(tree) {
        return false;
      }
      var para, firstAsPara := PopParagraph();
      var done, last, next := BuildDefinitions(grammar, src, pos, para, firstAsPara);
      AttachList(Element(Dl, done, None, map[]), last);
      pos := next;
      ok := true;
    }

    /** Take the paragraph (and the blank line after it) off the tree. */
    method PopParagraph() returns (para: Element, firstAsPara: bool)
      requires Accepts(tree)
      modifies this
      ensures Popped(tree, para, firstAsPara) == PopTail(old(tree))
      ensures pos == old(pos)
    {
      firstAsPara := false;
      para := tree[|tree| - 1];
      tree := tree[..|tree| - 1];
      if para.kind == Blank {
        para := tree[|tree| - 1];
        tree := tree[..|tree| - 1];
        firstAsPara := true;
      }
    }

    /** Attach the new definition list, then the held blank line. */
    method AttachList(dl: Element, last: Option<Element>)
      modifies this
      ensures tree == Attach(old(tree), dl, last)
      ensures pos == old(pos)
    {
      if |tree| >= 1 && tree[|tree| - 1].kind == Dl {
        tree := tree[..|tree| - 1] + [Extended(tree[|tree| - 1], dl.children)];
      } else if |tree| >= 2 && tree[|tree| - 1].kind == Blank && tree[|tree| - 2].kind == Dl {
        tree := tree[..|tree| - 2] + [Extended(tree[|tree| - 2], dl.children)];
      } else {
        tree := tree + [dl];
      }
      if last.Some? {
        tree := tree + [last.value];
      }
    }
  }

  // ---------------------------------------------------------------------
  // What the two parsers promise
  // ---------------------------------------------------------------------

  /**
   * The list parser declines exactly when the tree ends with a paragraph,
   * and then changes neither the tree nor the cursor.
   */
  lemma ListDeclinesAfterParagraph(g: Grammar, src: seq<string>, pos: nat, tree: seq<Element>)
    requires pos < |src| && IsListStart(src[pos])
    ensures var r := ListResult(g, src, pos, tree);
      && (!r.accepted <==> |tree| > 0 && Last(tree).kind == P)
      && (!r.accepted ==> r.tree == tree && r.pos == pos)
  {
  }

  /**
   * The new list is one element of the type its first marker names, holding
   * one finalized item per marker line consumed; at most one blank line
   * follows it: the one the finalization holds, exactly when it holds one
   * and no end-of-block marker ended the list; the cursor moves
   * forward past lines none of which is a horizontal rule.
   */
  lemma ListPartsMeaning(g: Grammar, src: seq<string>, pos: nat)
    requires pos < |src| && IsListStart(src[pos])
    ensures var b := ListParts(g, src, pos);
      var s := Scan(g, ListShape(src[pos]), src, pos, InitialState());
      && b.list.kind == (if MarkerWidth(Bullet, 3, src[pos]).Some? then Ul else Ol)
      && b.list.value.None?
      && |b.list.children| == CountMarkers(s.trace)
      && (forall i :: 0 <= i < |b.list.children| ==> b.list.children[i].kind == Li)
      && |b.tail| <= 1
      && (|b.tail| == 1 ==> b.tail[0].kind == Blank && !s.eob)
      && (var held := HeldTrailing(g, s.final.items, s.eob, |s.final.items|);
          && (|b.tail| == 1 <==> !s.eob && held.Some?)
          && (|b.tail| == 1 ==> b.tail == [held.value]))
      && pos <= b.next <= |src|
      && (forall i :: pos <= i < b.next ==> !g.isHr(src[i]))
  {
    var shape := ListShape(src[pos]);
    var s := Scan(g, shape, src, pos, InitialState());
    var items := s.final.items;
    ScanCount(g, shape, src, pos, InitialState());
    ScanAllItems(g, shape, src, pos, InitialState());
    ScanNoHr(g, shape, src, pos, InitialState());
    HeldTrailingBlank(g, items, s.eob, |items|);
    forall i | 0 <= i < |items|
      ensures FinalizedItems(g, items, s.eob, |items|)[i].kind == Li
    {
      FinalizedItemAt(g, items, s.eob, |items|, i);
      FinalizeItemMeaning(g, items[i], i == |items| - 1, s.eob);
    }
  }

  /**
   * An accepted list keeps the tree before it and appends the new list and
   * the blank line after it, and no more; the cursor is where the loop
   * stopped.
   */
  lemma ListResultMeaning(g: Grammar, src: seq<string>, pos: nat, tree: seq<Element>)
    requires pos < |src| && IsListStart(src[pos])
    requires !(|tree| > 0 && Last(tree).kind == P)
    ensures var r := ListResult(g, src, pos, tree);
      var b := ListParts(g, src, pos);
      && r.accepted
      && |tree| < |r.tree| <= |tree| + 2
      && r.tree[..|tree|] == tree
      && r.tree[|tree|] == b.list
      && r.tree[|tree| + 1..] == b.tail
      && r.pos == b.next
  {
    ListPartsMeaning(g, src, pos);
    var b := ListParts(g, src, pos);
    var r := ListResult(g, src, pos, tree);
    assert r.tree == tree + [b.list] + b.tail;
  }

  /**
   * The definition-list parser declines exactly when the tree's tail is
   * not a paragraph, possibly followed by a one-newline blank line, and then
   * changes neither the tree nor the cursor.
   */
  lemma DefinitionListDeclines(g: Grammar, src: seq<string>, pos: nat, tree: seq<Element>)
    requires pos < |src| && MarkerWidth(Colon, 3, src[pos]).Some?
    ensures var r := DefinitionListResult(g, src, pos, tree);
      && (r.accepted <==>
        || (|tree| >= 1 && Last(tree).kind == P)
        || (|tree| >= 2 && Last(tree).kind == Blank && Last(tree).value == Some("\n") && tree[|tree| - 2].kind == P))
      && (!r.accepted ==> r.tree == tree && r.pos == pos)
  {
    AcceptsShapes(tree);
  }

  /**
   * The new list's entries are one term per line of the paragraph's text,
   * then the raw definitions finalized; there is one raw definition per
   * marker line the loop consumed, each of type `:dd` carrying its
   * `first_as_para` option.
   */
  lemma BuiltEntriesMeaning(g: Grammar, src: seq<string>, pos: nat, p: Popped)
    requires pos < |src| && MarkerWidth(Colon, 3, src[pos]).Some?
    ensures var d := BuiltDefinitions(g, src, pos, p);
      var s := DefScan(g, src, pos, DefInitial(p.firstAsPara));
      && d.entries == Terms(TermLines(p.para)) + FinalizedEntries(g, s.final.items)
      && |s.final.items| == CountDdMarkers(s.trace)
      && AllDefinitions(s.final.items)
  {
    var st := DefInitial(p.firstAsPara);
    DefScanCount(g, src, pos, st);
    DefScanAllDefinitions(g, src, pos, st);
    FinalizedSplit(g, Terms(TermLines(p.para)), DefScan(g, src, pos, st).final.items);
    FinalizedTerms(g, TermLines(p.para));
  }

  /**
   * The line the definition list holds back is a blank line, and the loop
   * consumes at least the first definition line.
   */
  lemma BuiltHeldAndCursor(g: Grammar, src: seq<string>, pos: nat, p: Popped)
    requires pos < |src| && MarkerWidth(Colon, 3, src[pos]).Some?
    ensures var d := BuiltDefinitions(g, src, pos, p);
      && (d.held.Some? ==> d.held.value.kind == Blank)
      && pos < d.next <= |src|
  {
    var entries := RawEntries(g, src, pos, p);
    DefHeldBlank(g, entries, |entries|);
  }

  /**
   * An accepted definition list: the paragraph (and the blank line after
   * it) are taken off the tree, the new list with the terms and finalized
   * definitions is attached to what is left, the held blank line follows,
   * and the cursor is where the loop stopped.
   */
  lemma DefinitionListMeaning(g: Grammar, src: seq<string>, pos: nat, tree: seq<Element>)
    requires pos < |src| && MarkerWidth(Colon, 3, src[pos]).Some?
    requires Accepts(tree)
    ensures var r := DefinitionListResult(g, src, pos, tree);
      var p := PopTail(tree);
      var d := BuiltDefinitions(g, src, pos, p);
      && r.accepted && r.pos == d.next
      && r.tree == Attach(p.rest, Element(Dl, d.entries, None, map[]), d.held)
      && tree == p.rest + [p.para] + (if p.firstAsPara then [Last(tree)] else [])
  {
    PopTailMeaning(tree);
  }

  /** The raw definition a marker line opens when nothing but a space follows the marker. */
  lemma EmptyMarkerStep(g: Grammar)
    ensures DefClassify(g, DefInitial(false), ": ") == DdMarker
    ensures DefStep(g, DefInitial(false), ": ", DdMarker) == DefState([Element(Dd, [], Some(""), map[FirstAsPara := false])], 3, 4, false)
  {
    var line := ": ";
    assert LeadingSpaces(line) == 0;
    assert MarkerWidth(Colon, 3, line) == Some(1);
    assert line[1..] == " " && AllWhite(line[1..]);
    assert StripWhite(" \n") == "" by {
      assert " \n"[1..] == "\n";
      assert "\n"[1..] == "";
    }
    assert FirstListLine(1, line[1..]) == FirstResult("", 4);
  }

  /** An empty line after that marker line is a blank line added to the definition. */
  lemma EmptyLineStep(g: Grammar)
    requires g.isBlank("")
    ensures var st := DefState([Element(Dd, [], Some(""), map[FirstAsPara := false])], 3, 4, false);
      && DefCanClassify(st, "")
      && DefClassify(g, st, "") == DdBlank
      && DefStep(g, st, "", DdBlank) == DefState([Element(Dd, [], Some("\n"), map[FirstAsPara := false])], 3, 4, true)
  {
    assert MarkerWidth(Colon, 3, "").None?;
    assert !ContentMatch(4, "") by {
      assert Units(1, "").None? && Units(2, "").None?;
    }
    var item := Element(Dd, [], Some(""), map[FirstAsPara := false]);
    assert "" + "\n" == "\n";
    assert ValueOf(item) + ("" + "\n") == "\n";
    assert AppendValue(item, "" + "\n") == Element(Dd, [], Some("\n"), map[FirstAsPara := false]);
    assert [item][..0] + [AppendValue(item, "" + "\n")] == [AppendValue(item, "" + "\n")];
  }

  /**
   * The definition loop on a marker line with nothing but a space after the
   * marker, then an empty line: it consumes both lines and builds one raw
   * definition whose buffer is a single newline.
   */
  lemma LoneBlankScan(g: Grammar)
    requires g.isBlank("")
    ensures DefOutcome(g, [": ", ""], 0, DefInitial(false)) == ([Element(Dd, [], Some("\n"), map[FirstAsPara := false])], 2)
  {
    var src := [": ", ""];
    var st0 := DefInitial(false);
    var st1 := DefState([Element(Dd, [], Some(""), map[FirstAsPara := false])], 3, 4, false);
    var st2 := DefState([Element(Dd, [], Some("\n"), map[FirstAsPara := false])], 3, 4, true);
    EmptyMarkerStep(g);
    EmptyLineStep(g);
    DefScanConsume(g, src, 0, st0, st1);
    DefScanConsume(g, src, 1, st1, st2);
    assert DefOutcome(g, src, 2, st2) == (st2.items, 2);
  }

  /**
   * A paragraph followed by a definition marker with nothing after it and
   * then an empty line: the raw definition's buffer is a single newline,
   * which the block parser turns into a lone blank line. Finalizing that
   * definition as the source is written fails; the corrected finalization
   * keeps the blank line and leaves the definition empty, marked
   * `first_is_block` with its `first_as_para` option still false.
   */
  lemma LoneBlankDefinition(g: Grammar)
    requires g.isBlank("")
    requires g.parseBlocks("\n") == [Element(Blank, [], Some("\n"), map[])]
    ensures var s := DefOutcome(g, [": ", ""], 0, DefInitial(false));
      && s.1 == 2 && |s.0| == 1
      && FinalizeDefinitionAsWritten(g, s.0[0]).None?
      && FinalizeDefinition(g, s.0[0]).item.children == []
      && FinalizeDefinition(g, s.0[0]).trailing == Some(Element(Blank, [], Some("\n"), map[]))
      && FinalizeDefinition(g, s.0[0]).item.options == map[FirstAsPara := false, FirstIsBlock := true]
  {
    LoneBlankScan(g);
    var it := Element(Dd, [], Some("\n"), map[FirstAsPara := false]);
    assert ParsedChildren(g, it) == [Element(Blank, [], Some("\n"), map[])];
    AsWrittenFailsOnlyOnLoneBlank(g, it);
    SettledLoneBlank(it, ParsedChildren(g, it));
  }
}
