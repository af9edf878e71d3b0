/**
 * The document tree of the markup parser, as far as the list sub-parser
 * sees it, and the collaborators it calls into but does not define.
 */
module Elements {

  datatype Option<+T> = None | Some(value: T)

  /** The element types the list sub-parser creates or inspects. */
  datatype Kind =
    | Ul | Ol | Li          // unordered list, ordered list, list item
    | Dl | Dt | Dd          // definition list, term, definition
    | P | Blank | Text      // paragraph, blank-line marker, text
    | OtherKind             // anything else the block parser produces

  /** The option flags the list sub-parser sets or reads on an element. */
  datatype Opt = FirstIsBlock | FirstAsPara

  /** A tree node: its type, its ordered children, its value and its options. */
  datatype Element = Element(kind: Kind, children: seq<Element>, value: Option<string>, options: map<Opt, bool>)

  function NewElement(kind: Kind): Element
  {
    Element(kind, [], None, map[])
  }

  function TextElement(s: string): Element
  {
    Element(Text, [], Some(s), map[])
  }

  /**
   * The patterns and the block grammar defined outside the list sub-parser:
   * the horizontal-rule start, the end-of-block marker and the blank-line
   * pattern as predicates on one line, and the recursive block parser as a
   * function from a text buffer to the children it would produce.
   */
  datatype Grammar = Grammar(
    isHr: string -> bool,
    isEob: string -> bool,
    isBlank: string -> bool,
    parseBlocks: string -> seq<Element>)

  /**
   * The text node a paragraph holds first. The block parser always builds a
   * paragraph with one; a paragraph without one reads as holding empty text.
   */
  function FirstText(p: Element): (t: Element)
    ensures |p.children| > 0 ==> t == p.children[0]
  {
    if |p.children| > 0 then p.children[0] else TextElement("")
  }

  /** The string value of a node, a missing value read as empty. */
  function ValueOf(e: Element): string
  {
    match e.value
    case Some(s) => s
    case None => ""
  }

  /** The node's value with `text` appended, as `value << text` does. */
  function AppendValue(e: Element, text: string): Element
  {
    e.(value := Some(ValueOf(e) + text))
  }
}
