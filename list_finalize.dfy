/**
 * The finalization pass of the ordered/unordered list parser: every raw item
 * has its buffer parsed into blocks, is made tight or loose, and gives up a
 * trailing blank-line marker.
 */
module ListFinalize {
  import opened Elements
  import opened Lines

  /** An item's children once its buffer is parsed: those it already has, then the new ones. */
  function ParsedChildren(g: Grammar, it: Element): seq<Element>
  {
    it.children + g.parseBlocks(ValueOf(it))
  }

  /**
   * The tight-item test: the first child is a paragraph and either there is
   * no second child, the second child is not a blank line, or this is the
   * last item, it has exactly two children and no end-of-block marker ended
   * the list.
   */
  predicate Tight(cs: seq<Element>, isLast: bool, eob: bool)
    requires |cs| > 0
  {
    cs[0].kind == P && (|cs| < 2 || cs[1].kind != Blank || (isLast && |cs| == 2 && !eob))
  }

  /** The paragraph's text node, with a newline added when a non-blank child follows. */
  function UnwrappedText(cs: seq<Element>): (t: Element)
    requires |cs| > 0
  {
    var text := FirstText(cs[0]);
    if |cs| > 1 && cs[1].kind != Blank then text.(value := Some(ValueOf(text) + "\n")) else text
  }

  /** The children before the trailing blank is popped. */
  function Arranged(cs: seq<Element>, isLast: bool, eob: bool): (r: seq<Element>)
    requires |cs| > 0
    ensures |r| == |cs|
  {
    if Tight(cs, isLast, eob) then [UnwrappedText(cs)] + cs[1..] else cs
  }

  /** The finalized item and the blank it gives up, if its last child is one. */
  datatype Finalized = Finalized(item: Element, trailing: Option<Element>)

  /** What the pass makes of one raw item. */
  function FinalizeItem(g: Grammar, it: Element, isLast: bool, eob: bool): (r: Finalized)
  {
    var cs := ParsedChildren(g, it);
    if cs == [] then Finalized(it.(children := [], value := None), None)
    else
      var opts := if Tight(cs, isLast, eob) then it.options else it.options[FirstIsBlock := true];
      var body := Arranged(cs, isLast, eob);
      if Last(body).kind == Blank then
        Finalized(it.(children := body[..|body| - 1], value := None, options := opts), Some(Last(body)))
      else
        Finalized(it.(children := body, value := None, options := opts), None)
  }

  /**
   * The index of the last of the first `n` items that has children once its
   * buffer is parsed, or -1 when there is none.
   */
  function LastNonEmpty(g: Grammar, items: seq<Element>, n: nat): (j: int)
    requires n <= |items|
    ensures -1 <= j < n
    ensures j >= 0 ==> ParsedChildren(g, items[j]) != []
    ensures forall m :: j < m < n ==> ParsedChildren(g, items[m]) == []
  {
    if n == 0 then -1
    else if ParsedChildren(g, items[n - 1]) == [] then LastNonEmpty(g, items, n - 1)
    else n - 1
  }

  /**
   * The blank marker the pass holds once it has seen the first `n` items:
   * the one given up by the last of them that had children at all (an item
   * without children leaves the held one alone).
   */
  function HeldTrailing(g: Grammar, items: seq<Element>, eob: bool, n: nat): Option<Element>
    requires n <= |items|
  {
    var j := LastNonEmpty(g, items, n);
    if j < 0 then None else FinalizeItem(g, items[j], j == |items| - 1, eob).trailing
  }

  /**
   * One round of the pass, on one raw item: parse its buffer, unwrap the
   * leading paragraph or mark the item `first_is_block`, pop a trailing
   * blank. `skipped` tells that the item had no children at all. This is
   * the body of the each-loop that `FinalizeList` runs, the statements that
   * update `it` in place; `FinalizeItem` is the function that specifies it.
   */
  method FinalizeOne(g: Grammar, it: Element, isLast: bool, eob: bool) returns (r: Finalized, skipped: bool)
    ensures r == FinalizeItem(g, it, isLast, eob)
    ensures skipped <==> ParsedChildren(g, it) == []
  {
    var cs := it.children + g.parseBlocks(ValueOf(it));
    skipped := cs == [];
    if skipped {
      r := Finalized(it.(children := [], value := None), None);
      return;
    }
    var opts := it.options;
    if cs[0].kind == P && (|cs| < 2 || cs[1].kind != Blank || (isLast && |cs| == 2 && !eob)) {
      var text := FirstText(cs[0]);
      if |cs| > 1 && cs[1].kind != Blank {
        text := text.(value := Some(ValueOf(text) + "\n"));
      }
      cs := [text] + cs[1..];
    } else {
      opts := opts[FirstIsBlock := true];
    }
    if cs[|cs| - 1].kind == Blank {
      r := Finalized(it.(children := cs[..|cs| - 1], value := None, options := opts), Some(cs[|cs| - 1]));
    } else {
      r := Finalized(it.(children := cs, value := None, options := opts), None);
    }
  }

  /** The first `n` items, finalized. */
  function FinalizedItems(g: Grammar, items: seq<Element>, eob: bool, n: nat): (r: seq<Element>)
    requires n <= |items|
    ensures |r| == n
  {
    if n == 0 then [] else FinalizedItems(g, items, eob, n - 1) + [FinalizeItem(g, items[n - 1], n == |items|, eob).item]
  }

  /** Every item is finalized on its own, only its being the last one mattering. */
  lemma {:induction false} FinalizedItemAt(g: Grammar, items: seq<Element>, eob: bool, n: nat, j: nat)
    requires j < n <= |items|
    ensures FinalizedItems(g, items, eob, n)[j] == FinalizeItem(g, items[j], j == |items| - 1, eob).item
  {
    if j < n - 1 {
      FinalizedItemAt(g, items, eob, n - 1, j);
    }
  }

  /** One more item seen: it is finalized, and its blank is held if it had children. */
  lemma FinalizeStep(g: Grammar, items: seq<Element>, eob: bool, i: nat)
    requires i < |items|
    ensures var r := FinalizeItem(g, items[i], i == |items| - 1, eob);
      && FinalizedItems(g, items, eob, i + 1) == FinalizedItems(g, items, eob, i) + [r.item]
      && HeldTrailing(g, items, eob, i + 1)
        == if ParsedChildren(g, items[i]) == [] then HeldTrailing(g, items, eob, i) else r.trailing
  {
    assert (i + 1 == |items|) == (i == |items| - 1);
  }

  /**
   * The finalization pass as the source runs it, one item after the other,
   * remembering the blank the last non-empty item gave up.
   */
  method FinalizeList(g: Grammar, items: seq<Element>, eob: bool) returns (done: seq<Element>, last: Option<Element>)
    ensures done == FinalizedItems(g, items, eob, |items|)
    ensures last == HeldTrailing(g, items, eob, |items|)
  {
    done := [];
    last := None;
    var i := 0;
    while i < |items|
      invariant 0 <= i <= |items|
      invariant done == FinalizedItems(g, items, eob, i)
      invariant last == HeldTrailing(g, items, eob, i)
    {
      var r, skipped := FinalizeOne(g, items[i], i == |items| - 1, eob);
      FinalizeStep(g, items, eob, i);
      if !skipped {
        last := r.trailing;
      }
      done := done + [r.item];
      i := i + 1;
    }
  }

  /** The children a finalized item ends with, followed by the blank it gave up. */
  function Kept(r: Finalized): seq<Element>
  {
    r.item.children + (if r.trailing.Some? then [r.trailing.value] else [])
  }

  /**
   * Every finalized item has no buffer left and keeps its type. An item with
   * no children stays empty and gives nothing up. Otherwise the leading
   * paragraph is replaced by its text exactly when the item is tight, every
   * other item is marked `first_is_block`, no child is lost or reordered, and
   * a blank is given up exactly when the (rearranged) children end with one.
   */
  lemma FinalizeItemMeaning(g: Grammar, it: Element, isLast: bool, eob: bool)
    ensures var r := FinalizeItem(g, it, isLast, eob);
      var cs := ParsedChildren(g, it);
      && r.item.value.None? && r.item.kind == it.kind
      && (cs == [] ==> r.item.children == [] && r.trailing.None? && r.item.options == it.options)
      && (cs != [] ==>
        && (Tight(cs, isLast, eob) ==> r.item.options == it.options && Kept(r) == [UnwrappedText(cs)] + cs[1..])
        && (!Tight(cs, isLast, eob) ==> r.item.options == it.options[FirstIsBlock := true] && Kept(r) == cs)
        && (r.trailing.Some? <==> Last(Arranged(cs, isLast, eob)).kind == Blank)
        && (r.trailing.Some? ==> r.trailing.value.kind == Blank))
  {
    var cs := ParsedChildren(g, it);
    if cs != [] {
      var body := Arranged(cs, isLast, eob);
      if Last(body).kind == Blank {
        assert body[..|body| - 1] + [Last(body)] == body;
      }
    }
  }

  /** The blank held after the pass is a blank-line marker. */
  lemma HeldTrailingBlank(g: Grammar, items: seq<Element>, eob: bool, n: nat)
    requires n <= |items|
    ensures HeldTrailing(g, items, eob, n).Some? ==> HeldTrailing(g, items, eob, n).value.kind == Blank
  {
    var j := LastNonEmpty(g, items, n);
    if j >= 0 {
      FinalizeItemMeaning(g, items[j], j == |items| - 1, eob);
    }
  }
}
