/**
 * The parts of the definition-list parser around its scanning loop: the test
 * on the tree that lets it start, the terms taken from the paragraph before
 * the first definition, the finalization of every definition, and the way
 * the new list is attached to the tree.
 */
module DefinitionList {
  import opened Elements
  import opened Lines
  import opened ListFinalize

  // ---------------------------------------------------------------------
  // The start test and the terms
  // ---------------------------------------------------------------------

  /**
   * The tree's children let a definition list start, as the source tests it:
   * there is a last child, and it is not the case that a sole child is no
   * paragraph, nor that with two or more children the last is no paragraph
   * and also not a blank line of exactly one newline after a paragraph.
   */
  predicate Accepts(children: seq<Element>)
  {
    !(|children| == 0
      || (|children| == 1 && Last(children).kind != P)
      || (|children| >= 2 && Last(children).kind != P
        && (Last(children).kind != Blank || Last(children).value != Some("\n") || children[|children| - 2].kind != P)))
  }

  /**
   * The test accepts exactly two tails: one ending with a paragraph, and one
   * ending with a paragraph followed by a one-newline blank line.
   */
  lemma AcceptsShapes(children: seq<Element>)
    ensures Accepts(children) <==>
      || (|children| >= 1 && Last(children).kind == P)
      || (|children| >= 2 && Last(children).kind == Blank && Last(children).value == Some("\n")
        && children[|children| - 2].kind == P)
  {
  }

  /** The tree once the paragraph (and the blank after it) are taken off, that paragraph, and the flag. */
  datatype Popped = Popped(rest: seq<Element>, para: Element, firstAsPara: bool)

  /** Take off the last child; if it is a blank line, take off the paragraph before it as well and set the flag. */
  function PopTail(children: seq<Element>): (r: Popped)
    requires Accepts(children)
    ensures r.para.kind == P
  {
    var top := Last(children);
    var rest := children[..|children| - 1];
    if top.kind == Blank then Popped(rest[..|rest| - 1], Last(rest), true)
    else Popped(rest, top, false)
  }

  /**
   * Popping loses nothing: the tree is the rest, then the paragraph, then the
   * blank line exactly when the flag is set; the flag is set exactly when
   * the tree ended with a blank line.
   */
  lemma PopTailMeaning(children: seq<Element>)
    requires Accepts(children)
    ensures var r := PopTail(children);
      && (r.firstAsPara <==> Last(children).kind == Blank)
      && children == r.rest + [r.para] + (if r.firstAsPara then [Last(children)] else [])
  {
    var r := PopTail(children);
    var rest := children[..|children| - 1];
    assert children == rest + [Last(children)];
    if r.firstAsPara {
      assert rest == rest[..|rest| - 1] + [Last(rest)];
    }
  }

  /** The term made from one line of the paragraph's text. */
  function Term(line: string): Element
  {
    Element(Dt, [TextElement(line)], None, map[])
  }

  /** The lines of the paragraph's text node, split as the source splits it. */
  function TermLines(para: Element): seq<string>
  {
    SplitLines(ValueOf(FirstText(para)))
  }

  /** One term per line, in order. */
  function Terms(lines: seq<string>): (r: seq<Element>)
    ensures |r| == |lines|
  {
    if lines == [] then [] else Terms(lines[..|lines| - 1]) + [Term(Last(lines))]
  }

  lemma {:induction false} TermsAt(lines: seq<string>)
    ensures forall i :: 0 <= i < |lines| ==> Terms(lines)[i] == Term(lines[i])
  {
    if lines != [] {
      var front := lines[..|lines| - 1];
      TermsAt(front);
      assert forall i :: 0 <= i < |front| ==> front[i] == lines[i];
    }
  }

  /** The terms of the paragraph's text, built one line after the other. */
  method BuildTerms(para: Element) returns (dts: seq<Element>)
    ensures dts == Terms(TermLines(para))
  {
    var lines := SplitLines(ValueOf(FirstText(para)));
    dts := [];
    for i := 0 to |lines|
      invariant dts == Terms(lines[..i])
    {
      assert lines[..i + 1][..i] == lines[..i];
      dts := dts + [Term(lines[i])];
    }
    assert lines[..|lines|] == lines;
  }

  /**
   * The terms hold the paragraph's text and nothing else: no term holds a
   * newline, and joined with newlines they give the text with all its
   * trailing newlines dropped.
   */
  lemma TermLinesCover(para: Element)
    ensures forall i :: 0 <= i < |TermLines(para)| ==> '\n' !in TermLines(para)[i]
    ensures var v := ValueOf(FirstText(para)); var j := JoinLines(TermLines(para));
      |j| <= |v| && v[..|j|] == j && forall i :: |j| <= i < |v| ==> v[i] == '\n'
    ensures var j := JoinLines(TermLines(para)); |j| == 0 || j[|j| - 1] != '\n'
  {
    SplitLinesJoin(ValueOf(FirstText(para)));
  }

  // ---------------------------------------------------------------------
  // Finalizing the definitions
  // ---------------------------------------------------------------------

  /** The `first_as_para` option, a missing one read as false. */
  predicate FirstAsParaSet(options: map<Opt, bool>)
  {
    FirstAsPara in options && options[FirstAsPara]
  }

  /** The children without a trailing blank line, and that blank line. */
  function PopBlank(cs: seq<Element>): (r: (seq<Element>, Option<Element>))
    requires |cs| > 0
    ensures r.1.Some? <==> Last(cs).kind == Blank
    ensures cs == r.0 + (if r.1.Some? then [r.1.value] else [])
  {
    if Last(cs).kind == Blank then
      assert cs == cs[..|cs| - 1] + [Last(cs)];
      (cs[..|cs| - 1], Some(Last(cs)))
    else (cs, None)
  }

  /**
   * The definition once its leading paragraph is settled: when the body
   * starts with a paragraph the `first_as_para` option is removed, and the
   * paragraph is replaced by its text (with a newline when more follows)
   * unless the option was set; otherwise the definition is marked
   * `first_is_block`.
   */
  function SettleFirst(it: Element, body: seq<Element>): (r: Element)
    requires |body| > 0
  {
    if body[0].kind == P && !FirstAsParaSet(it.options) then
      var text := FirstText(body[0]);
      var text' := if |body| > 1 then text.(value := Some(ValueOf(text) + "\n")) else text;
      it.(children := [text'] + body[1..], value := None, options := it.options - {FirstAsPara})
    else if body[0].kind == P then
      it.(children := body, value := None, options := (it.options - {FirstAsPara})[FirstIsBlock := true])
    else
      it.(children := body, value := None, options := it.options[FirstIsBlock := true])
  }

  /**
   * One definition as the source finalizes it; `None` stands for the
   * failure when the only child is the blank line just popped, and the
   * source reads the type of a first child that is not there.
   */
  function FinalizeDefinitionAsWritten(g: Grammar, it: Element): Option<Finalized>
  {
    var cs := ParsedChildren(g, it);
    if cs == [] then Some(Finalized(it.(children := [], value := None), None))
    else
      var (body, trailing) := PopBlank(cs);
      if body == [] then None
      else Some(Finalized(SettleFirst(it, body), trailing))
  }

  /**
   * One definition, finalized: as the source does it, except that a
   * definition whose only child was the popped blank line is left without
   * children and marked `first_is_block`, as when the test of its first
   * child's type is guarded against a missing child.
   */
  function FinalizeDefinition(g: Grammar, it: Element): (r: Finalized)
  {
    Settled(it, ParsedChildren(g, it))
  }

  /** The corrected finalization of a definition whose parsed children are `cs`. */
  function Settled(it: Element, cs: seq<Element>): Finalized
  {
    if cs == [] then Finalized(it.(children := [], value := None), None)
    else
      var (body, trailing) := PopBlank(cs);
      if body == [] then Finalized(it.(children := [], value := None, options := it.options[FirstIsBlock := true]), trailing)
      else Finalized(SettleFirst(it, body), trailing)
  }

  /**
   * The two agree except on a definition whose children are exactly one
   * blank line, where the source as written fails.
   */
  lemma AsWrittenFailsOnlyOnLoneBlank(g: Grammar, it: Element)
    ensures FinalizeDefinitionAsWritten(g, it).None? <==>
      |ParsedChildren(g, it)| == 1 && ParsedChildren(g, it)[0].kind == Blank
    ensures FinalizeDefinitionAsWritten(g, it).Some? ==> FinalizeDefinitionAsWritten(g, it).value == FinalizeDefinition(g, it)
  {
    var cs := ParsedChildren(g, it);
    if cs != [] {
      var (body, trailing) := PopBlank(cs);
      if |cs| == 1 {
        assert Last(cs) == cs[0];
      }
      if body == [] {
        assert |cs| == 1;
      }
    }
  }

  /**
   * What finalization promises about any definition: no buffer is left, its
   * type is kept, one without children stays so with its options as they
   * were, and a blank line is given up exactly when the children end with
   * one, and then it is that last child.
   */
  lemma SettledShape(it: Element, cs: seq<Element>)
    ensures var r := Settled(it, cs);
      && r.item.value.None? && r.item.kind == it.kind
      && (cs == [] ==> r.item.children == [] && r.trailing.None? && r.item.options == it.options)
      && (cs != [] ==> (r.trailing.Some? <==> Last(cs).kind == Blank))
      && (cs != [] && r.trailing.Some? ==> r.trailing.value == Last(cs))
  {
  }

  /**
   * A leading paragraph without the `first_as_para` option is replaced by
   * its text, and the option is removed; no other child is lost or
   * reordered.
   */
  lemma SettledUnwraps(it: Element, cs: seq<Element>)
    requires cs != [] && cs[0].kind == P && !FirstAsParaSet(it.options)
    ensures Kept(Settled(it, cs)) == [UnwrappedNode(cs)] + cs[1..]
    ensures Settled(it, cs).item.options == it.options - {FirstAsPara}
  {
    var (body, trailing) := PopBlank(cs);
    assert body != [] && body[0] == cs[0];
    assert body[1..] + (if trailing.Some? then [trailing.value] else []) == cs[1..];
  }

  /**
   * A leading paragraph with the `first_as_para` option set stays, the
   * option is removed and the definition is marked `first_is_block`; any
   * other first child, a lone blank line included, marks it
   * `first_is_block`. No child is lost or reordered.
   */
  lemma SettledKeepsBlock(it: Element, cs: seq<Element>)
    requires cs != []
    requires cs[0].kind == P ==> FirstAsParaSet(it.options)
    ensures Kept(Settled(it, cs)) == cs
    ensures cs[0].kind == P ==> Settled(it, cs).item.options == (it.options - {FirstAsPara})[FirstIsBlock := true]
    ensures cs[0].kind != P ==> Settled(it, cs).item.options == it.options[FirstIsBlock := true]
  {
    var (body, trailing) := PopBlank(cs);
    if |cs| == 1 {
      assert Last(cs) == cs[0];
    }
    if body != [] {
      assert body[0] == cs[0];
    }
  }

  /**
   * A definition whose only child is a blank line gives it up and is marked
   * `first_is_block`; its `first_as_para` option stays.
   */
  lemma SettledLoneBlank(it: Element, cs: seq<Element>)
    requires |cs| == 1 && cs[0].kind == Blank
    ensures Settled(it, cs).item.children == [] && Settled(it, cs).trailing == Some(cs[0])
    ensures Settled(it, cs).item.options == it.options[FirstIsBlock := true]
  {
    assert Last(cs) == cs[0];
  }

  /**
   * The text node that takes the place of a leading paragraph: with a
   * newline added when another child follows, the popped blank line not
   * counting as one.
   */
  function UnwrappedNode(cs: seq<Element>): Element
    requires |cs| > 0
  {
    var text := FirstText(cs[0]);
    if |cs| > 2 || (|cs| == 2 && cs[1].kind != Blank) then text.(value := Some(ValueOf(text) + "\n")) else text
  }

  /** A term stays as it is; a definition is finalized. */
  function FinalizeEntry(g: Grammar, it: Element): Element
  {
    if it.kind == Dt then it else FinalizeDefinition(g, it).item
  }

  /**
   * The index of the last of the first `n` entries that is a definition with
   * children once its buffer is parsed, or -1 when there is none.
   */
  function LastDefinition(g: Grammar, entries: seq<Element>, n: nat): (j: int)
    requires n <= |entries|
    ensures -1 <= j < n
    ensures j >= 0 ==> entries[j].kind != Dt && ParsedChildren(g, entries[j]) != []
    ensures forall m :: j < m < n ==> entries[m].kind == Dt || ParsedChildren(g, entries[m]) == []
  {
    if n == 0 then -1
    else if entries[n - 1].kind == Dt || ParsedChildren(g, entries[n - 1]) == [] then LastDefinition(g, entries, n - 1)
    else n - 1
  }

  /**
   * The blank line held once the first `n` entries are seen: the one given
   * up by the last definition that had children at all.
   */
  function DefHeld(g: Grammar, entries: seq<Element>, n: nat): Option<Element>
    requires n <= |entries|
  {
    var j := LastDefinition(g, entries, n);
    if j < 0 then None else FinalizeDefinition(g, entries[j]).trailing
  }

  /**
   * One round of the finalization loop, on one definition: the body of the
   * each-loop that `FinalizeDefinitions` runs, the statements that update
   * `it` in place. `FinalizeDefinition` is the function that specifies it.
   */
  method FinalizeOneDefinition(g: Grammar, it: Element) returns (r: Finalized, skipped: bool)
    ensures r == FinalizeDefinition(g, it)
    ensures skipped <==> ParsedChildren(g, it) == []
  {
    var cs := it.children + g.parseBlocks(ValueOf(it));
    skipped := cs == [];
    if skipped {
      r := Finalized(it.(children := [], value := None), None);
      return;
    }
    var body, trailing := cs, None;
    if cs[|cs| - 1].kind == Blank {
      trailing := Some(cs[|cs| - 1]);
      body := cs[..|cs| - 1];
    }
    assert (body, trailing) == PopBlank(cs);
    if body == [] {
      r := Finalized(it.(children := [], value := None, options := it.options[FirstIsBlock := true]), trailing);
    } else {
      var item := SettleFirstChild(it, body);
      r := Finalized(item, trailing);
    }
  }

  /**
   * The treatment of a definition's first child, once the trailing blank
   * line is popped: the if/else statement of the loop body, which updates
   * `it` in place. `SettleFirst` is the function that specifies it.
   */
  method SettleFirstChild(it: Element, body: seq<Element>) returns (item: Element)
    requires |body| > 0
    ensures item == SettleFirst(it, body)
  {
    if body[0].kind == P && !(FirstAsPara in it.options && it.options[FirstAsPara]) {
      var text := FirstText(body[0]);
      if |body| > 1 {
        text := text.(value := Some(ValueOf(text) + "\n"));
      }
      item := it.(children := [text] + body[1..], value := None, options := it.options - {FirstAsPara});
    } else if body[0].kind == P {
      item := it.(children := body, value := None, options := (it.options - {FirstAsPara})[FirstIsBlock := true]);
    } else {
      item := it.(children := body, value := None, options := it.options[FirstIsBlock := true]);
    }
  }

  /** The entries, finalized one by one. */
  function FinalizedEntries(g: Grammar, entries: seq<Element>): (r: seq<Element>)
    ensures |r| == |entries|
  {
    if entries == [] then [] else FinalizedEntries(g, entries[..|entries| - 1]) + [FinalizeEntry(g, Last(entries))]
  }

  lemma {:induction false} FinalizedEntriesAt(g: Grammar, entries: seq<Element>)
    ensures forall i :: 0 <= i < |entries| ==> FinalizedEntries(g, entries)[i] == FinalizeEntry(g, entries[i])
  {
    if entries != [] {
      var front := entries[..|entries| - 1];
      FinalizedEntriesAt(g, front);
      assert forall i :: 0 <= i < |front| ==> front[i] == entries[i];
    }
  }

  /** Finalizing works entry by entry, so it distributes over concatenation. */
  lemma {:induction false} FinalizedSplit(g: Grammar, a: seq<Element>, b: seq<Element>)
    ensures FinalizedEntries(g, a + b) == FinalizedEntries(g, a) + FinalizedEntries(g, b)
    decreases |b|
  {
    if b != [] {
      var front := b[..|b| - 1];
      assert (a + b)[..|a + b| - 1] == a + front;
      assert Last(a + b) == Last(b);
      FinalizedSplit(g, a, front);
    } else {
      assert a + b == a;
    }
  }

  /** Finalizing leaves terms alone. */
  lemma {:induction false} FinalizedTerms(g: Grammar, lines: seq<string>)
    ensures FinalizedEntries(g, Terms(lines)) == Terms(lines)
  {
    if lines != [] {
      var ts := Terms(lines);
      var front := lines[..|lines| - 1];
      assert ts[..|ts| - 1] == Terms(front);
      FinalizedTerms(g, front);
    }
  }

  /** One more entry seen: it is finalized, and a definition with children replaces the held blank line. */
  lemma FinalizeEntryStep(g: Grammar, entries: seq<Element>, i: nat)
    requires i < |entries|
    ensures FinalizedEntries(g, entries[..i + 1]) == FinalizedEntries(g, entries[..i]) + [FinalizeEntry(g, entries[i])]
    ensures DefHeld(g, entries, i + 1)
      == if entries[i].kind == Dt || ParsedChildren(g, entries[i]) == [] then DefHeld(g, entries, i)
         else FinalizeDefinition(g, entries[i]).trailing
  {
    assert entries[..i + 1][..i] == entries[..i];
  }

  /**
   * The finalization loop over the new list's entries, terms first: terms
   * are skipped, every definition is finalized, and the blank line given up
   * by the last definition with children is kept.
   */
  method FinalizeDefinitions(g: Grammar, entries: seq<Element>) returns (done: seq<Element>, last: Option<Element>)
    ensures done == FinalizedEntries(g, entries)
    ensures last == DefHeld(g, entries, |entries|)
  {
    done := [];
    last := None;
    var i := 0;
    while i < |entries|
      invariant 0 <= i <= |entries|
      invariant done == FinalizedEntries(g, entries[..i])
      invariant last == DefHeld(g, entries, i)
    {
      var it := entries[i];
      FinalizeEntryStep(g, entries, i);
      if it.kind != Dt {
        var r, skipped := FinalizeOneDefinition(g, it);
        if !skipped {
          last := r.trailing;
        }
        it := r.item;
      }
      done := done + [it];
      i := i + 1;
    }
    assert entries[..|entries|] == entries;
  }

  /** The blank line held after the loop is a blank-line marker. */
  lemma DefHeldBlank(g: Grammar, entries: seq<Element>, n: nat)
    requires n <= |entries|
    ensures DefHeld(g, entries, n).Some? ==> DefHeld(g, entries, n).value.kind == Blank
  {
    var j := LastDefinition(g, entries, n);
    if j >= 0 {
      SettledShape(entries[j], ParsedChildren(g, entries[j]));
    }
  }

  // ---------------------------------------------------------------------
  // Attaching the list to the tree
  // ---------------------------------------------------------------------

  /** The definition list whose entries are appended to an earlier one. */
  function Extended(dl: Element, entries: seq<Element>): Element
  {
    dl.(children := dl.children + entries)
  }

  /**
   * The tree after the new list is attached: its entries go to a definition
   * list that is the last child, or to one just before a trailing blank line
   * (which is dropped); otherwise the new list becomes the last child.
   */
  function Attached(tree: seq<Element>, dl: Element): seq<Element>
  {
    if |tree| >= 1 && Last(tree).kind == Dl then tree[..|tree| - 1] + [Extended(Last(tree), dl.children)]
    else if |tree| >= 2 && Last(tree).kind == Blank && tree[|tree| - 2].kind == Dl then
      tree[..|tree| - 2] + [Extended(tree[|tree| - 2], dl.children)]
    else tree + [dl]
  }

  /** The held blank line, as the children it adds. */
  function HeldLine(held: Option<Element>): (r: seq<Element>)
    ensures |r| == (if held.Some? then 1 else 0)
  {
    if held.Some? then [held.value] else []
  }

  /** The tree after the new list is attached, followed by the held blank line. */
  function Attach(tree: seq<Element>, dl: Element, held: Option<Element>): seq<Element>
  {
    Attached(tree, dl) + HeldLine(held)
  }

  /** The last `n` elements of a sequence. */
  function Suffix<T>(s: seq<T>, n: nat): seq<T>
    requires n <= |s|
  {
    s[|s| - n..]
  }

  /**
   * Attaching keeps everything before the list it extends, ends with a
   * definition list whose last entries are exactly the new ones, and says
   * which of the three cases applied.
   */
  lemma AttachedMeaning(tree: seq<Element>, dl: Element)
    requires dl.kind == Dl
    ensures var a := Attached(tree, dl);
      && |a| >= 1 && Last(a).kind == Dl
      && |dl.children| <= |Last(a).children|
      && Suffix(Last(a).children, |dl.children|) == dl.children
      && (|tree| >= 1 && Last(tree).kind == Dl ==>
        a[..|a| - 1] == tree[..|tree| - 1] && Last(a).children == Last(tree).children + dl.children)
      && (!(|tree| >= 1 && Last(tree).kind == Dl) && |tree| >= 2 && Last(tree).kind == Blank && tree[|tree| - 2].kind == Dl ==>
        a[..|a| - 1] == tree[..|tree| - 2] && Last(a).children == tree[|tree| - 2].children + dl.children)
      && (!(|tree| >= 1 && Last(tree).kind == Dl) && !(|tree| >= 2 && Last(tree).kind == Blank && tree[|tree| - 2].kind == Dl) ==>
        a == tree + [dl])
  {
    var a := Attached(tree, dl);
    assert Last(a).children[|Last(a).children| - |dl.children|..] == dl.children;
  }

  /** The held blank line, if any, follows the attached tree as its last child. */
  lemma AttachMeaning(tree: seq<Element>, dl: Element, held: Option<Element>)
    requires dl.kind == Dl
    ensures var t := Attach(tree, dl, held);
      var h := if held.Some? then 1 else 0;
      && |t| >= 1 + h
      && t[..|t| - h] == Attached(tree, dl)
      && (held.Some? ==> Last(t) == held.value)
      && t[|t| - h - 1] == Last(Attached(tree, dl))
  {
    var t := Attach(tree, dl, held);
    AttachedMeaning(tree, dl);
    assert t[..|Attached(tree, dl)|] == Attached(tree, dl);
  }
}
