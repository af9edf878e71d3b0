# kramdown list parsers, modelled in Dafny

This project models the list sub-parser of kramdown, the Ruby Markdown
parser. That sub-parser is the file `lib/kramdown/parser/kramdown/list.rb`, and it has two entry points:

- `parse_list` reads an ordered or unordered list at the cursor.
- `parse_definition_list` turns the paragraph just parsed into the terms of
  a definition list and reads the definitions that follow it.

Both work on the block parser's source cursor and on the children of the
element being built. Each either declines and changes nothing, or consumes
lines, builds the list and attaches it to the tree. The definition list
parser, as written, can also raise on Ruby 1.9 and later (see ## Findings); the model follows the
corrected code there.

The model follows the source's structure:

- `Elements`: kramdown's `Element` (type, children, value, options). It
  also holds `Grammar`: the parts of the surrounding block parser the list
  parsers call or check against. Those are the horizontal-rule,
  end-of-block and blank-line patterns, and `parse_blocks`.
- `Lines`: string helpers (leading spaces, whitespace stripping,
  `split("\n")`).
- `FirstLine`: `parse_first_list_line`. It expands tabs after the marker
  to 4-column tab stops, computes the item's indentation and strips the text.
- `Continuation`: the `content_re` and `indent_re` patterns built from an
  indentation, and how a continuation line is rewritten into the item's
  buffer.
- `Markers`: `LIST_START_UL`, `LIST_START_OL`, `DEFINITION_LIST_START` and
  their narrowed variants, with the indentation ceiling `{0,n}`.
- `ListScan`: the scanning loop of `parse_list`, with two forms:
  - a specification function `Scan`, which records what kind of line each
    consumed line was;
  - a method `ScanList` with a `while` loop, proved equal to it.
- `ListFinalize`: the finalization loop of `parse_list`. Each item's buffer
  is parsed, the item is made tight or loose, and a trailing blank line is
  popped.
- `DefinitionScan`: the scanning loop of `parse_definition_list`.
- `DefinitionList`: the rest of `parse_definition_list`:
  - its precondition on the tree, and popping the paragraph;
  - the terms;
  - finalizing the definitions;
  - attaching to a preceding definition list.
- `ListParsers`: a class `KramdownParser` holding the grammar, the source
  lines, the cursor and the tree's children. Its methods `ParseList` and
  `ParseDefinitionList` are proved equal to the functions `ListResult`
  and `DefinitionListResult`. The lemmas state what those functions
  promise.

How the source is represented:

- The source is a sequence of lines without their `"\n"`. A line's
  `.*?\n` match is the line itself.
- Regular expressions become predicates and functions on a line.
- `OPT_SPACE` is 0 to 3 spaces.

## Model

| member | source | states |
|---|---|---|
| FirstLine.ParseFirstListLine | vendor/extensions/markdown_filter/vendor/kramdown/lib/kramdown/parser/kramdown/list.rb:33-44 | The loop computes the first-line result. For blank content, the indentation is 4 and the text is empty. Otherwise the indentation is at least the marker width and the text ends with a newline. The text never starts with whitespace. |
| FirstLine.FirstListLine | vendor/extensions/markdown_filter/vendor/kramdown/lib/kramdown/parser/kramdown/list.rb:33-43 | parse_first_list_line as a function: blank content gives ("", 4); otherwise tabs are expanded, the indentation grows by the leading spaces and the content is stripped. |
| FirstLine.ExpandTabs | vendor/extensions/markdown_filter/vendor/kramdown/lib/kramdown/parser/kramdown/list.rb:37-40 | The while loop of substitutions, run until no tab follows the leading spaces. |
| FirstLine.ExpandStep | vendor/extensions/markdown_filter/vendor/kramdown/lib/kramdown/parser/kramdown/list.rb:38-39 | One substitution: every round strictly shortens the text after the leading spaces, so the loop ends. |
| FirstLine.TabStopColumn | vendor/extensions/markdown_filter/vendor/kramdown/lib/kramdown/parser/kramdown/list.rb:37-41 | The reference column a run of leading blanks reaches: one per space, the next multiple of 4 per tab. It is never less than the start column. |
| FirstLine.FirstListLineMeaning | vendor/extensions/markdown_filter/vendor/kramdown/lib/kramdown/parser/kramdown/list.rb:34-43 | Blank content gives ("", 4). Otherwise, the indentation is the column the content's leading blanks reach from the marker width, with tabs to 4-column stops. It is at least the marker width, and the text is the content with leading whitespace stripped. |
| FirstLine.ExpandTabsColumn | vendor/extensions/markdown_filter/vendor/kramdown/lib/kramdown/parser/kramdown/list.rb:37-41 | After the tab-expanding loop, no tab follows the leading spaces. The marker width plus the leading spaces is the tab-stop column of the original content. The rest of the content is unchanged. |
| FirstLine.ExpandStepColumn | vendor/extensions/markdown_filter/vendor/kramdown/lib/kramdown/parser/kramdown/list.rb:38-39 | One substitution of the loop keeps the tab-stop column of the content. |
| FirstLine.ColumnOfStep | vendor/extensions/markdown_filter/vendor/kramdown/lib/kramdown/parser/kramdown/list.rb:38-39 | The width one substitution puts in place of a tab run: the first tab goes to the next multiple of 4 (4 - temp % 4 spaces), and every further tab gives 4. |
| FirstLine.ColumnOfSpacesTabs | vendor/extensions/markdown_filter/vendor/kramdown/lib/kramdown/parser/kramdown/list.rb:38-39 | Spaces then tabs advance the column by the spaces, then to the next tab stop, then 4 per further tab. |
| FirstLine.ExpandStepRest | vendor/extensions/markdown_filter/vendor/kramdown/lib/kramdown/parser/kramdown/list.rb:39 | One substitution rewrites only the leading blanks. |
| FirstLine.ExpandKeepsNonBlank | vendor/extensions/markdown_filter/vendor/kramdown/lib/kramdown/parser/kramdown/list.rb:37-39 | Expanding tabs never makes non-blank content blank. |
| FirstLine.StripBlank | vendor/extensions/markdown_filter/vendor/kramdown/lib/kramdown/parser/kramdown/list.rb:34-43 | Stripping blank content followed by its newline leaves nothing. |
| FirstLine.StripNonBlank | vendor/extensions/markdown_filter/vendor/kramdown/lib/kramdown/parser/kramdown/list.rb:43 | Stripping non-blank content keeps its newline, and the stripped text is non-empty. |
| Continuation.ContentMatchColumn | vendor/extensions/markdown_filter/vendor/kramdown/lib/kramdown/parser/kramdown/list.rb:46 | A line that content_re accepts reaches the item's indentation column, with tabs to 4-column stops. |
| Continuation.MixedPrefixNoMatch | vendor/extensions/markdown_filter/vendor/kramdown/lib/kramdown/parser/kramdown/list.rb:46 | The converse does not hold: two spaces and a tab reach column 4, yet content_re for indentation 4 rejects the line. The rule counts tabs and groups of four spaces, not tab stops. |
| Continuation.ContentMatch | vendor/extensions/markdown_filter/vendor/kramdown/lib/kramdown/parser/kramdown/list.rb:46 | content_re: indentation / 4 units of a tab or four spaces followed by indentation % 4 spaces, or indentation / 4 + 1 units. |
| Continuation.ExpandLeadingTabs | vendor/extensions/markdown_filter/vendor/kramdown/lib/kramdown/parser/kramdown/list.rb:81 | The substitution that turns the leading tabs into four spaces each. |
| Continuation.StripIndent | vendor/extensions/markdown_filter/vendor/kramdown/lib/kramdown/parser/kramdown/list.rb:82 | indent_re: exactly indentation leading spaces removed, when present. |
| Continuation.ContinuationText | vendor/extensions/markdown_filter/vendor/kramdown/lib/kramdown/parser/kramdown/list.rb:81-82 | A continuation line as it is added to the buffer: tabs widened, then the indentation removed. |
| Continuation.UnitsColumn | vendor/extensions/markdown_filter/vendor/kramdown/lib/kramdown/parser/kramdown/list.rb:46 | Every unit of content_re (a tab or four spaces), starting at a tab stop, advances the column by exactly 4. |
| Continuation.UnitsOfSpaces | vendor/extensions/markdown_filter/vendor/kramdown/lib/kramdown/parser/kramdown/list.rb:46 | 4n spaces are n units of content_re. |
| Continuation.UnitsOfTabs | vendor/extensions/markdown_filter/vendor/kramdown/lib/kramdown/parser/kramdown/list.rb:46 | n tabs are n units of content_re. |
| Continuation.ContinuationOfSpaces | vendor/extensions/markdown_filter/vendor/kramdown/lib/kramdown/parser/kramdown/list.rb:80-82 | A line indented by exactly the item's indentation in spaces continues the item, and exactly that indentation is removed. |
| Continuation.TabsMatch | vendor/extensions/markdown_filter/vendor/kramdown/lib/kramdown/parser/kramdown/list.rb:46 | A line of t leading tabs continues an item whose indentation is at most 4t. |
| Continuation.ContinuationOfTabs | vendor/extensions/markdown_filter/vendor/kramdown/lib/kramdown/parser/kramdown/list.rb:80-82 | A line of t leading tabs, with 4t at least the indentation, continues the item. After the tabs are expanded to 4 spaces each and the indentation is cut off, 4t - indentation spaces precede the rest of the line. |
| Continuation.ExpandTabsPrefix | vendor/extensions/markdown_filter/vendor/kramdown/lib/kramdown/parser/kramdown/list.rb:81 | The leading tabs of a continuation line become four spaces each, and nothing else changes. |
| Continuation.StripIndentOfSpaces | vendor/extensions/markdown_filter/vendor/kramdown/lib/kramdown/parser/kramdown/list.rb:82 | indent_re removes exactly the indentation from a run of at least that many spaces. |
| Continuation.RunAtTabs | vendor/extensions/markdown_filter/vendor/kramdown/lib/kramdown/parser/kramdown/list.rb:81 | The tab run counted is the whole run of leading tabs. |
| Markers.MarkerWidth | vendor/extensions/markdown_filter/vendor/kramdown/lib/kramdown/parser/kramdown/list.rb:51-53 | A marker match (here and in DEFINITION_LIST_START, line 137) ends before a tab, '\|' or space that is still on the line, and its leading spaces are within the ceiling. |
| Markers.MarkerEnd | vendor/extensions/markdown_filter/vendor/kramdown/lib/kramdown/parser/kramdown/list.rb:51-53 | The marker (bullet, digits and a dot, or the colon of line 137) ends after the leading spaces and within the line. |
| Markers.IsListStart | vendor/extensions/markdown_filter/vendor/kramdown/lib/kramdown/parser/kramdown/list.rb:53 | LIST_START: either marker pattern, with up to three leading spaces. The same pattern is the nested-list test of line 83. |
| Markers.DigitRun | vendor/extensions/markdown_filter/vendor/kramdown/lib/kramdown/parser/kramdown/list.rb:52 | The digit run of an ordered marker is maximal and holds digits only. |
| Markers.MarkerNarrowing | vendor/extensions/markdown_filter/vendor/kramdown/lib/kramdown/parser/kramdown/list.rb:77-78 | A narrower ceiling (as also in line 171) accepts a marker line exactly when the wider one does and its leading spaces are within the narrower ceiling. The match is then the same. |
| Markers.BulletAtTwoSpaces | vendor/extensions/markdown_filter/vendor/kramdown/lib/kramdown/parser/kramdown/list.rb:51 | "  - " followed by anything is an unordered marker of width 3. |
| Markers.ColonAtStart | vendor/extensions/markdown_filter/vendor/kramdown/lib/kramdown/parser/kramdown/list.rb:137 | A colon and a space at the start of a line open a definition of marker width 1 under any ceiling. |
| ListScan.Classify | vendor/extensions/markdown_filter/vendor/kramdown/lib/kramdown/parser/kramdown/list.rb:69-101 | Before the first item, a line is either a horizontal rule or a marker line. After the rule and marker tests, a blank line right after a blank line stays in the blank run; then come the continuation, blank, end-of-block and other tests, in the order of list.rb. |
| ListScan.ClassifyFacts | vendor/extensions/markdown_filter/vendor/kramdown/lib/kramdown/parser/kramdown/list.rb:70-98 | Horizontal rules come first. A marker line is exactly a non-rule line that matches the current marker pattern. The nested re-parse happens only when no nested list was seen yet. An end-of-block line matches EOB_MARKER. A blank line met right after a blank line, and neither a rule nor a marker, is blank: it belongs to the same run. |
| ListScan.NewItem | vendor/extensions/markdown_filter/vendor/kramdown/lib/kramdown/parser/kramdown/list.rb:73-74 | A new item's indentation is at least 1. |
| ListScan.Reparse | vendor/extensions/markdown_filter/vendor/kramdown/lib/kramdown/parser/kramdown/list.rb:84-89 | The speculative re-parse keeps the item's type and options. |
| ListScan.Step | vendor/extensions/markdown_filter/vendor/kramdown/lib/kramdown/parser/kramdown/list.rb:72-95 | Every consumed line leaves at least one item. |
| ListScan.StepFacts | vendor/extensions/markdown_filter/vendor/kramdown/lib/kramdown/parser/kramdown/list.rb:72-95 | A marker line appends exactly one empty li item and narrows the ceiling to min(3, indentation - 1). Other consumed lines change only the last item: a blank line appends itself and a newline and sets the nested flag; a continuation line appends its rewritten text and a newline, after the re-parse when that is due. The in-run flag is set exactly by a blank line. |
| ListScan.Scan | vendor/extensions/markdown_filter/vendor/kramdown/lib/kramdown/parser/kramdown/list.rb:69-102 | The cursor after the loop is the start plus the number of lines read, within the source. An end-of-block marker was found exactly when the last line read was one. |
| ListScan.ScanTail | vendor/extensions/markdown_filter/vendor/kramdown/lib/kramdown/parser/kramdown/list.rb:69-102 | A consumed line is one step of the loop followed by the rest of the loop. |
| ListScan.ScanHalt | vendor/extensions/markdown_filter/vendor/kramdown/lib/kramdown/parser/kramdown/list.rb:96-100 | A line that is not consumed ends the loop. End-of-block is the only such line that is read. |
| ListScan.ScanCount | vendor/extensions/markdown_filter/vendor/kramdown/lib/kramdown/parser/kramdown/list.rb:72-75 | The list has one item per marker line the loop consumed. |
| ListScan.StepKeepsPrefix | vendor/extensions/markdown_filter/vendor/kramdown/lib/kramdown/parser/kramdown/list.rb:75-95 | One step never removes items and changes at most the last one. |
| ListScan.ScanKeepsPrefix | vendor/extensions/markdown_filter/vendor/kramdown/lib/kramdown/parser/kramdown/list.rb:75-95 | The loop never removes items and changes no item but the last of those it started with. |
| ListScan.StepAllItems | vendor/extensions/markdown_filter/vendor/kramdown/lib/kramdown/parser/kramdown/list.rb:73-75 | One step keeps every item an li element. |
| ListScan.ScanAllItems | vendor/extensions/markdown_filter/vendor/kramdown/lib/kramdown/parser/kramdown/list.rb:73-75 | Every item the loop builds is an li element. |
| ListScan.ScanConsumes | vendor/extensions/markdown_filter/vendor/kramdown/lib/kramdown/parser/kramdown/list.rb:69-102 | Only the last line the loop reads can be one it does not consume. |
| ListScan.ScanNoHr | vendor/extensions/markdown_filter/vendor/kramdown/lib/kramdown/parser/kramdown/list.rb:70-71 | No line the loop consumes is a horizontal rule. |
| ListScan.ScanStops | vendor/extensions/markdown_filter/vendor/kramdown/lib/kramdown/parser/kramdown/list.rb:96-100 | Without an end-of-block marker, the loop stops at the end of the source or at a horizontal rule or unrecognised line. |
| ListScan.StepCeiling | vendor/extensions/markdown_filter/vendor/kramdown/lib/kramdown/parser/kramdown/list.rb:77-78 | One step keeps the ceiling at min(3, indentation - 1) of the last item. |
| ListScan.ScanCeiling | vendor/extensions/markdown_filter/vendor/kramdown/lib/kramdown/parser/kramdown/list.rb:77-78 | The loop keeps the ceiling at min(3, indentation - 1) of the last item. |
| ListScan.ScanAdmissible | vendor/extensions/markdown_filter/vendor/kramdown/lib/kramdown/parser/kramdown/list.rb:79-94 | The sequence of lines read respects the nested-list flag: it is cleared by a marker, and set by a blank line or a re-parse. |
| ListScan.AdmissibleNestedOnce | vendor/extensions/markdown_filter/vendor/kramdown/lib/kramdown/parser/kramdown/list.rb:83-91 | Such a sequence has at most one re-parse between two markers, and none after a blank line. |
| ListScan.ScanNestedOnce | vendor/extensions/markdown_filter/vendor/kramdown/lib/kramdown/parser/kramdown/list.rb:79-94 | The speculative re-parse runs at most once per item, and never after a blank line in that item. |
| ListScan.ScanConsume | vendor/extensions/markdown_filter/vendor/kramdown/lib/kramdown/parser/kramdown/list.rb:69-95 | Consuming a line leaves the loop's outcome unchanged. |
| ListScan.OutcomeHalt | vendor/extensions/markdown_filter/vendor/kramdown/lib/kramdown/parser/kramdown/list.rb:69-100 | The loop's outcome when it stops: the items so far, the cursor after an end-of-block line or at the stopping line, and the end-of-block flag. |
| ListScan.ReadLine | vendor/extensions/markdown_filter/vendor/kramdown/lib/kramdown/parser/kramdown/list.rb:70-101 | One iteration classifies the line at the cursor and applies the step for it, or leaves the state unchanged when the line ends the loop. |
| ListScan.OpenItem | vendor/extensions/markdown_filter/vendor/kramdown/lib/kramdown/parser/kramdown/list.rb:73-74 | A new li built from its marker line by parse_first_list_line is the item the scan specification adds. |
| ListScan.ScanLine | vendor/extensions/markdown_filter/vendor/kramdown/lib/kramdown/parser/kramdown/list.rb:69-101 | One iteration at the cursor either keeps the loop's outcome or yields it. |
| ListScan.ScanList | vendor/extensions/markdown_filter/vendor/kramdown/lib/kramdown/parser/kramdown/list.rb:64-102 | The while loop returns the items, the cursor and the end-of-block flag that the scan specification gives. |
| ListFinalize.LastNonEmpty | vendor/extensions/markdown_filter/vendor/kramdown/lib/kramdown/parser/kramdown/list.rb:112-127 | The index of the last item with children, before the n-th: every later one has none. |
| ListFinalize.ParsedChildren | vendor/extensions/markdown_filter/vendor/kramdown/lib/kramdown/parser/kramdown/list.rb:108-110 | An item's children after parse_blocks on its buffer: the ones it had, then the parsed ones. |
| ListFinalize.HeldTrailing | vendor/extensions/markdown_filter/vendor/kramdown/lib/kramdown/parser/kramdown/list.rb:106-127 | The `last` variable after the first n items: the blank popped by the last item that had children, so an item without children leaves it alone. |
| ListFinalize.Tight | vendor/extensions/markdown_filter/vendor/kramdown/lib/kramdown/parser/kramdown/list.rb:114-115 | The tight-item test: the first child is a paragraph, and there is no second child, the second is not blank, or this is the last item with exactly two children and no end-of-block marker. |
| ListFinalize.UnwrappedText | vendor/extensions/markdown_filter/vendor/kramdown/lib/kramdown/parser/kramdown/list.rb:116-117 | The paragraph's text node, with "\n" appended when a non-blank child follows. |
| ListFinalize.Arranged | vendor/extensions/markdown_filter/vendor/kramdown/lib/kramdown/parser/kramdown/list.rb:114-121 | The children after the tight/loose decision: there are as many as before. |
| ListFinalize.FinalizeItem | vendor/extensions/markdown_filter/vendor/kramdown/lib/kramdown/parser/kramdown/list.rb:108-127 | The body of the each-loop on one item as a function: the parsed children, unwrapped or marked first_is_block, the trailing blank popped. |
| ListFinalize.FinalizeOne | vendor/extensions/markdown_filter/vendor/kramdown/lib/kramdown/parser/kramdown/list.rb:108-127 | One pass of the loop body on an item gives the finalized item and the blank it gives up. It tells whether the item had no children. |
| ListFinalize.FinalizeItemMeaning | vendor/extensions/markdown_filter/vendor/kramdown/lib/kramdown/parser/kramdown/list.rb:108-127 | A finalized item has no value and keeps its type. An item without children stays empty and gives up nothing. Otherwise, for a tight item, the leading paragraph is replaced by its text (with a newline when a non-blank child follows). Every loose item is marked first_is_block. No child is lost or reordered, and a trailing blank is popped exactly when the children end with one. |
| ListFinalize.FinalizedItems | vendor/extensions/markdown_filter/vendor/kramdown/lib/kramdown/parser/kramdown/list.rb:107-128 | There is one finalized item per raw item. |
| ListFinalize.FinalizedItemAt | vendor/extensions/markdown_filter/vendor/kramdown/lib/kramdown/parser/kramdown/list.rb:107-128 | Each item is finalized on its own. Only whether it is the last item of the list matters. |
| ListFinalize.FinalizeStep | vendor/extensions/markdown_filter/vendor/kramdown/lib/kramdown/parser/kramdown/list.rb:107-128 | Each round appends the finalized item. It keeps the held blank when the item had no children and replaces it otherwise (with nil when the item does not end with a blank). |
| ListFinalize.FinalizeList | vendor/extensions/markdown_filter/vendor/kramdown/lib/kramdown/parser/kramdown/list.rb:106-128 | The loop gives every item finalized, and the blank given up by the last item that had children. |
| ListFinalize.HeldTrailingBlank | vendor/extensions/markdown_filter/vendor/kramdown/lib/kramdown/parser/kramdown/list.rb:123-127 | The blank the pass holds is a blank element. |
| ListParsers.ListDeclinesAfterParagraph | vendor/extensions/markdown_filter/vendor/kramdown/lib/kramdown/parser/kramdown/list.rb:57-59 | The list parser declines exactly when the tree ends with a paragraph. It then changes neither the tree nor the cursor. |
| ListParsers.ListPartsMeaning | vendor/extensions/markdown_filter/vendor/kramdown/lib/kramdown/parser/kramdown/list.rb:61-130 | The new list is ul when the unordered pattern matches the first line, and ol otherwise. It has no value and one li item per marker line consumed. At most one blank line follows it: the blank the finalization holds, exactly when it holds one and no end-of-block marker ended the list. The cursor never moves back, and no line it passes is a horizontal rule. |
| ListParsers.ListResultMeaning | vendor/extensions/markdown_filter/vendor/kramdown/lib/kramdown/parser/kramdown/list.rb:104-130 | An accepted list keeps the tree before it and appends the list and then the held blank, nothing more. The cursor is where the loop stopped. |
| ListParsers.BuildList | vendor/extensions/markdown_filter/vendor/kramdown/lib/kramdown/parser/kramdown/list.rb:61-130 | The scanning loop followed by the finalization loop builds the list, the blank after it and the cursor. |
| ListParsers.ListParts | vendor/extensions/markdown_filter/vendor/kramdown/lib/kramdown/parser/kramdown/list.rb:61-130 | The list, the blank after it and the cursor: the scan, then the finalization of every item. |
| ListParsers.ListShape | vendor/extensions/markdown_filter/vendor/kramdown/lib/kramdown/parser/kramdown/list.rb:61 | The list kind: the unordered pattern is tried first, otherwise the line starts an ordered list. |
| ListParsers.ListTail | vendor/extensions/markdown_filter/vendor/kramdown/lib/kramdown/parser/kramdown/list.rb:130 | The blank held after the last item goes to the tree only when no end-of-block marker ended the list; this is the one place it is dropped. |
| ListParsers.ListResult | vendor/extensions/markdown_filter/vendor/kramdown/lib/kramdown/parser/kramdown/list.rb:56-133 | parse_list as a function of the tree and the cursor. |
| ListParsers.KramdownParser.ParseList | vendor/extensions/markdown_filter/vendor/kramdown/lib/kramdown/parser/kramdown/list.rb:56-133 | The parser's method updates the tree and the cursor as the list parser's result says. |
| DefinitionList.AcceptsShapes | vendor/extensions/markdown_filter/vendor/kramdown/lib/kramdown/parser/kramdown/list.rb:141-145 | The definition-list parser proceeds exactly when the tree ends with a paragraph, or with a paragraph and then a blank line whose value is "\n". |
| DefinitionList.Accepts | vendor/extensions/markdown_filter/vendor/kramdown/lib/kramdown/parser/kramdown/list.rb:141-145 | The negation of the guard at list.rb:142-143. |
| DefinitionList.PopTail | vendor/extensions/markdown_filter/vendor/kramdown/lib/kramdown/parser/kramdown/list.rb:147-153 | The element popped as the terms' paragraph is a paragraph. |
| DefinitionList.PopTailMeaning | vendor/extensions/markdown_filter/vendor/kramdown/lib/kramdown/parser/kramdown/list.rb:147-153 | first_as_para is set exactly when a blank line was popped first. The tree is what remains, then the paragraph, then that blank. |
| DefinitionList.Terms | vendor/extensions/markdown_filter/vendor/kramdown/lib/kramdown/parser/kramdown/list.rb:154-158 | There is one term per line. |
| DefinitionList.TermsAt | vendor/extensions/markdown_filter/vendor/kramdown/lib/kramdown/parser/kramdown/list.rb:154-158 | Each line of the paragraph's text becomes a dt holding one text element with that line. |
| DefinitionList.Term | vendor/extensions/markdown_filter/vendor/kramdown/lib/kramdown/parser/kramdown/list.rb:155-157 | One dt holding a text element with the line. |
| DefinitionList.TermLines | vendor/extensions/markdown_filter/vendor/kramdown/lib/kramdown/parser/kramdown/list.rb:154 | The lines of the paragraph's first text node, split on "\n". |
| DefinitionList.BuildTerms | vendor/extensions/markdown_filter/vendor/kramdown/lib/kramdown/parser/kramdown/list.rb:154-158 | The loop over the lines builds exactly those terms. |
| DefinitionList.TermLinesCover | vendor/extensions/markdown_filter/vendor/kramdown/lib/kramdown/parser/kramdown/list.rb:154 | The term lines hold no newline. Joined back, they are a prefix of the paragraph's text that does not end with a newline, and the rest of the text is newlines only: every trailing newline is dropped and nothing else. |
| Lines.SplitLinesJoin | vendor/extensions/markdown_filter/vendor/kramdown/lib/kramdown/parser/kramdown/list.rb:154 | split("\n") loses every trailing newline and nothing else: the pieces hold no newline, joined back they are a prefix of the text, the rest is newlines only, and the joined text does not end with a newline. |
| Lines.JoinEndsWithLast | vendor/extensions/markdown_filter/vendor/kramdown/lib/kramdown/parser/kramdown/list.rb:154 | Joined pieces end with the last piece. |
| Lines.SplitLines | vendor/extensions/markdown_filter/vendor/kramdown/lib/kramdown/parser/kramdown/list.rb:154 | Ruby's split("\n"): the pieces between newlines, with trailing empty pieces dropped. |
| DefinitionScan.DefClassify | vendor/extensions/markdown_filter/vendor/kramdown/lib/kramdown/parser/kramdown/list.rb:164-183 | Before the first definition, a line is a marker line. After the marker test, a blank line right after a blank line stays in the blank run; then come the continuation and blank tests, in the order of list.rb. |
| DefinitionScan.DefClassifyFacts | vendor/extensions/markdown_filter/vendor/kramdown/lib/kramdown/parser/kramdown/list.rb:165-183 | A marker line is exactly one that matches the current marker pattern. A blank line right after a blank line is blank whatever its indentation. A continuation line matches content_re, and a blank line the blank test. The loop stops only on a line that is neither. |
| DefinitionScan.NewDefinition | vendor/extensions/markdown_filter/vendor/kramdown/lib/kramdown/parser/kramdown/list.rb:165-168 | A new definition's indentation is at least 1. |
| DefinitionScan.DefStep | vendor/extensions/markdown_filter/vendor/kramdown/lib/kramdown/parser/kramdown/list.rb:165-180 | Every consumed line leaves at least one definition. |
| DefinitionScan.DefStepFacts | vendor/extensions/markdown_filter/vendor/kramdown/lib/kramdown/parser/kramdown/list.rb:165-180 | A marker line appends one dd whose first_as_para option is the running flag. It narrows the ceiling to min(3, indentation - 1) and clears the flag. Other consumed lines change only the last definition's buffer and set the flag exactly when they are blank. |
| DefinitionScan.DefScan | vendor/extensions/markdown_filter/vendor/kramdown/lib/kramdown/parser/kramdown/list.rb:164-184 | The cursor is the start plus the number of lines consumed. If the loop stops before the end, it stops at a line it does not recognise. |
| DefinitionScan.DefScanConsume | vendor/extensions/markdown_filter/vendor/kramdown/lib/kramdown/parser/kramdown/list.rb:164-180 | Consuming a line leaves the loop's outcome unchanged. |
| DefinitionScan.ReadDefLine | vendor/extensions/markdown_filter/vendor/kramdown/lib/kramdown/parser/kramdown/list.rb:165-183 | One iteration classifies the line and applies its step, or leaves the state unchanged when the line ends the loop. |
| DefinitionScan.ScanDefinitions | vendor/extensions/markdown_filter/vendor/kramdown/lib/kramdown/parser/kramdown/list.rb:160-184 | The while loop returns the definitions and the cursor that the scan specification gives. |
| DefinitionScan.DefStepCount | vendor/extensions/markdown_filter/vendor/kramdown/lib/kramdown/parser/kramdown/list.rb:165-172 | A consumed line adds one definition exactly when it is a marker line; continuation and blank lines add none. |
| DefinitionScan.DefScanCount | vendor/extensions/markdown_filter/vendor/kramdown/lib/kramdown/parser/kramdown/list.rb:165-169 | There is one definition per marker line consumed. |
| DefinitionScan.DefStepKeeps | vendor/extensions/markdown_filter/vendor/kramdown/lib/kramdown/parser/kramdown/list.rb:166 | One step keeps every definition a dd element. |
| DefinitionScan.DefScanAllDefinitions | vendor/extensions/markdown_filter/vendor/kramdown/lib/kramdown/parser/kramdown/list.rb:166 | Every definition the loop builds is a dd element. |
| DefinitionScan.DefScanFlag | vendor/extensions/markdown_filter/vendor/kramdown/lib/kramdown/parser/kramdown/list.rb:172-179 | After the loop, first_as_para tells whether the last line consumed was blank. |
| DefinitionScan.EmptyLineIsBlank | vendor/extensions/markdown_filter/vendor/kramdown/lib/kramdown/parser/kramdown/list.rb:173-180 | An empty line inside a definition is blank: content_re needs at least one indentation character. |
| DefinitionScan.SpacesInRunAreBlank | vendor/extensions/markdown_filter/vendor/kramdown/lib/kramdown/parser/kramdown/list.rb:178-180 | Two spaces right after a blank line go on with the blank run rather than continuing the definition. |
| DefinitionScan.RunThenMarker | vendor/extensions/markdown_filter/vendor/kramdown/lib/kramdown/parser/kramdown/list.rb:165-180 | One more blank-run line, then a marker line, opens a definition marked first_as_para. |
| DefinitionScan.BlankRunKeepsFlag | vendor/extensions/markdown_filter/vendor/kramdown/lib/kramdown/parser/kramdown/list.rb:164-184 | On ": a", "", "  ", ": b" the loop consumes all four lines and builds two definitions, the second marked first_as_para: the indented blank line stays in the run and does not clear the flag. |
| DefinitionList.PopBlank | vendor/extensions/markdown_filter/vendor/kramdown/lib/kramdown/parser/kramdown/list.rb:194-198 | A blank is popped exactly when the children end with one, and nothing else is removed. |
| DefinitionList.SettleFirst | vendor/extensions/markdown_filter/vendor/kramdown/lib/kramdown/parser/kramdown/list.rb:199-205 | The tight/loose branch on a definition's children once the trailing blank is popped. |
| DefinitionList.Settled | vendor/extensions/markdown_filter/vendor/kramdown/lib/kramdown/parser/kramdown/list.rb:192-205 | The corrected finalization of a definition's parsed children; it gives the lone-blank case, on which the source raises on Ruby 1.9 and later, the result of the guarded type test: no children and first_is_block. |
| DefinitionList.FinalizeDefinition | vendor/extensions/markdown_filter/vendor/kramdown/lib/kramdown/parser/kramdown/list.rb:190-205 | The corrected finalization of one definition (see ## Findings). |
| DefinitionList.FinalizeDefinitionAsWritten | vendor/extensions/markdown_filter/vendor/kramdown/lib/kramdown/parser/kramdown/list.rb:190-205 | The finalization as written: no result when line 199 would raise on Ruby 1.9 and later. |
| DefinitionList.AsWrittenFailsOnlyOnLoneBlank | vendor/extensions/markdown_filter/vendor/kramdown/lib/kramdown/parser/kramdown/list.rb:190-205 | Finalizing a definition as written fails (on Ruby 1.9 and later) exactly when its only child is a blank line. Otherwise it agrees with the corrected finalization. |
| DefinitionList.SettledShape | vendor/extensions/markdown_filter/vendor/kramdown/lib/kramdown/parser/kramdown/list.rb:190-198 | A finalized definition has no value and keeps its type. Without children it stays empty and keeps its options. A blank is held back exactly when the children end with one, and it is that last child. |
| DefinitionList.SettledUnwraps | vendor/extensions/markdown_filter/vendor/kramdown/lib/kramdown/parser/kramdown/list.rb:199-202 | When the first child is a paragraph and first_as_para is not set, that paragraph is replaced by its text, with a newline when other children follow. The option is removed. |
| DefinitionList.SettledKeepsBlock | vendor/extensions/markdown_filter/vendor/kramdown/lib/kramdown/parser/kramdown/list.rb:199-205 | Otherwise, a lone blank line included, every child is kept and the definition is marked first_is_block. first_as_para is removed only when the first child is a paragraph. |
| DefinitionList.SettledLoneBlank | vendor/extensions/markdown_filter/vendor/kramdown/lib/kramdown/parser/kramdown/list.rb:192-199 | A definition whose only child is a blank line ends empty, gives up the blank and is marked first_is_block; its first_as_para option stays. |
| DefinitionList.LastDefinition | vendor/extensions/markdown_filter/vendor/kramdown/lib/kramdown/parser/kramdown/list.rb:188-198 | The index of the last definition (not a term) with children, before the n-th: every later entry is a term or has none. |
| DefinitionList.DefHeld | vendor/extensions/markdown_filter/vendor/kramdown/lib/kramdown/parser/kramdown/list.rb:186-198 | The `last` variable after the first n entries: the blank popped by the last definition that had children. |
| DefinitionList.FinalizeEntry | vendor/extensions/markdown_filter/vendor/kramdown/lib/kramdown/parser/kramdown/list.rb:188-205 | A dt is skipped (line 189); a dd gets the corrected finalization. |
| DefinitionList.FinalizeOneDefinition | vendor/extensions/markdown_filter/vendor/kramdown/lib/kramdown/parser/kramdown/list.rb:190-205 | One pass of the loop body on a definition gives its finalized form and tells whether it had no children. It follows the corrected finalization (see ## Findings). |
| DefinitionList.SettleFirstChild | vendor/extensions/markdown_filter/vendor/kramdown/lib/kramdown/parser/kramdown/list.rb:199-205 | The tight/loose branch gives the settled definition. |
| DefinitionList.FinalizedEntries | vendor/extensions/markdown_filter/vendor/kramdown/lib/kramdown/parser/kramdown/list.rb:187-206 | There is one finalized entry per entry. |
| DefinitionList.FinalizedEntriesAt | vendor/extensions/markdown_filter/vendor/kramdown/lib/kramdown/parser/kramdown/list.rb:187-206 | Each entry is finalized on its own. |
| DefinitionList.FinalizedSplit | vendor/extensions/markdown_filter/vendor/kramdown/lib/kramdown/parser/kramdown/list.rb:187-206 | Finalizing is entry by entry, so it distributes over concatenation. |
| DefinitionList.FinalizedTerms | vendor/extensions/markdown_filter/vendor/kramdown/lib/kramdown/parser/kramdown/list.rb:188 | Terms are left unchanged. |
| DefinitionList.FinalizeEntryStep | vendor/extensions/markdown_filter/vendor/kramdown/lib/kramdown/parser/kramdown/list.rb:187-206 | Each round appends the finalized entry. It keeps the held blank for terms and for definitions without children, and replaces it otherwise. |
| DefinitionList.FinalizeDefinitions | vendor/extensions/markdown_filter/vendor/kramdown/lib/kramdown/parser/kramdown/list.rb:186-206 | The loop gives every entry finalized, and the blank held by the last definition that had children. It follows the corrected finalization (see ## Findings). |
| DefinitionList.DefHeldBlank | vendor/extensions/markdown_filter/vendor/kramdown/lib/kramdown/parser/kramdown/list.rb:194-198 | The blank the pass holds is a blank element. |
| DefinitionList.HeldLine | vendor/extensions/markdown_filter/vendor/kramdown/lib/kramdown/parser/kramdown/list.rb:217 | A held blank gives one element, and none gives nothing. |
| DefinitionList.AttachedMeaning | vendor/extensions/markdown_filter/vendor/kramdown/lib/kramdown/parser/kramdown/list.rb:208-215 | The new entries are appended to a definition list that ends the tree, or to one that a blank line follows (the blank is dropped). Otherwise the new list is appended. Nothing before them changes. |
| DefinitionList.AttachMeaning | vendor/extensions/markdown_filter/vendor/kramdown/lib/kramdown/parser/kramdown/list.rb:208-217 | The held blank, if any, follows the attached list. |
| DefinitionList.Attached | vendor/extensions/markdown_filter/vendor/kramdown/lib/kramdown/parser/kramdown/list.rb:208-215 | The three attachment cases of the new definition list. |
| DefinitionList.Extended | vendor/extensions/markdown_filter/vendor/kramdown/lib/kramdown/parser/kramdown/list.rb:209-212 | An earlier definition list with the new entries appended to its children. |
| DefinitionList.Attach | vendor/extensions/markdown_filter/vendor/kramdown/lib/kramdown/parser/kramdown/list.rb:208-217 | Attachment followed by the held blank. |
| ListParsers.DefinitionListDeclines | vendor/extensions/markdown_filter/vendor/kramdown/lib/kramdown/parser/kramdown/list.rb:141-145 | The definition-list parser declines exactly when the tree does not end with a paragraph, possibly followed by a "\n" blank line. It then changes neither the tree nor the cursor. |
| ListParsers.BuiltEntriesMeaning | vendor/extensions/markdown_filter/vendor/kramdown/lib/kramdown/parser/kramdown/list.rb:154-206 | The entries are one dt per line of the paragraph, then the finalized definitions. There is one raw definition per marker line consumed, each a dd. |
| ListParsers.BuiltHeldAndCursor | vendor/extensions/markdown_filter/vendor/kramdown/lib/kramdown/parser/kramdown/list.rb:164-198 | The held element is a blank line, and the loop consumes at least the first definition line. |
| ListParsers.DefinitionListMeaning | vendor/extensions/markdown_filter/vendor/kramdown/lib/kramdown/parser/kramdown/list.rb:140-220 | An accepted definition list takes the paragraph (and the blank after it) off the tree. It attaches the new list to what is left, followed by the held blank. The cursor is where the loop stopped. |
| ListParsers.BuildDefinitions | vendor/extensions/markdown_filter/vendor/kramdown/lib/kramdown/parser/kramdown/list.rb:154-206 | The terms, the definition loop and the finalization loop together build the entries, the held blank and the cursor. It follows the corrected finalization (see ## Findings). |
| ListParsers.BuiltDefinitions | vendor/extensions/markdown_filter/vendor/kramdown/lib/kramdown/parser/kramdown/list.rb:154-206 | The finalized entries, the held blank and the cursor (corrected finalization). |
| ListParsers.DefinitionListResult | vendor/extensions/markdown_filter/vendor/kramdown/lib/kramdown/parser/kramdown/list.rb:140-220 | parse_definition_list as a function of the tree and the cursor (corrected finalization). |
| ListParsers.KramdownParser.ParseDefinitionList | vendor/extensions/markdown_filter/vendor/kramdown/lib/kramdown/parser/kramdown/list.rb:140-220 | The parser's method updates the tree and the cursor as the definition-list parser's result says. It follows the corrected finalization (see ## Findings); on a lone-blank definition the source raises instead on Ruby 1.9 and later. |
| ListParsers.KramdownParser.PopParagraph | vendor/extensions/markdown_filter/vendor/kramdown/lib/kramdown/parser/kramdown/list.rb:147-153 | The paragraph (and the blank after it) are popped off the tree. |
| ListParsers.KramdownParser.AttachList | vendor/extensions/markdown_filter/vendor/kramdown/lib/kramdown/parser/kramdown/list.rb:208-217 | The tree becomes the new list attached, followed by the held blank. |
| ListParsers.EmptyMarkerStep | vendor/extensions/markdown_filter/vendor/kramdown/lib/kramdown/parser/kramdown/list.rb:165-172 | ": " opens a dd with an empty buffer and an indentation of 4. |
| ListParsers.EmptyLineStep | vendor/extensions/markdown_filter/vendor/kramdown/lib/kramdown/parser/kramdown/list.rb:178-180 | An empty line after it is added to that dd's buffer as "\n". |
| ListParsers.LoneBlankScan | vendor/extensions/markdown_filter/vendor/kramdown/lib/kramdown/parser/kramdown/list.rb:164-184 | The definition loop on ": " and an empty line builds one dd whose buffer is "\n" and consumes both lines. |
| ListParsers.LoneBlankDefinition | vendor/extensions/markdown_filter/vendor/kramdown/lib/kramdown/parser/kramdown/list.rb:190-199 | Finalizing that definition as written fails on Ruby 1.9 and later. The corrected version leaves it empty, marked first_is_block with first_as_para still false, and holds the blank. |

## Left out

- Regular expressions are not modelled as an engine. Each pattern is a predicate or function on one line. `OPT_SPACE` is up to three spaces. The `.*?\n` tail is the line itself, so lines are given without their `"\n"`.
- `HR_START`, `EOB_MARKER`, `BLANK_LINE` and `parse_blocks` belong to the surrounding block parser. They are parameters (the `Grammar` record) and are not modelled. blank_line.rb is not part of this model.
- `BLANK_LINE` takes a whole run of blank lines in one match. The scanners read the run one line at a time instead: a state flag (`inBlank` in `ListScan.ListState`, the `first_as_para` flag in `DefinitionScan.DefState`) records that the last line consumed was blank, and a blank line met while it is set is blank whatever its indentation. That test comes after the horizontal-rule and marker tests; in the source nothing is tested inside the run. The two orders agree as long as no horizontal-rule or marker line is blank, which the model does not promise for an arbitrary `Grammar`.
- `define_parser` (lines 134 and 221) registers the parsers with the block dispatcher. It is not modelled. The callers' precondition, that the start pattern matches at the cursor, is the `requires` of `ParseList` and `ParseDefinitionList`.
- Elements are values. Object identity and aliasing are not modelled:
  - `it == list.children.last` becomes "the index is the last one";
  - the list appended at line 104 and finalized afterwards becomes appending the finalized list.
  Both give the same tree.
- A paragraph without a text child has no `children.first.value`. `FirstText` and `ValueOf` then use an empty text element instead of raising.
- The character class `[\t| ]` after a marker also accepts '|'. That is taken as written.
- ListScan.Scan: its contract ties the end-of-block flag to the last line read being an end-of-block line. That this line matches `EOB_MARKER` is stated separately, in `ListScan.ClassifyFacts`.
- The model takes the semantics of Ruby 1.9 and later throughout. The as-written members follow it at line 199, where `nil.type` raises; on Ruby 1.8 it does not (see ## Findings).
- `\s` (lines 34 and 43) is taken as in Ruby 1.9: space, tab, newline, carriage return and form feed (`Lines.IsWhite`). Rubies that also match a vertical tab are not modelled.
- Text encodings, line endings other than "\n", and the options of the text elements are not modelled.

## Findings

| source | as written | input that shows it | evidently intended | confidence | as-written member | corrected member |
|---|---|---|---|---|---|---|
| vendor/extensions/markdown_filter/vendor/kramdown/lib/kramdown/parser/kramdown/list.rb:194-199 | A definition whose only child, after `parse_blocks`, is a blank line has that blank popped at line 195. Then `it.children.first` is nil, so `.type` on it raises at line 199 on Ruby 1.9 and later (NoMethodError). On Ruby 1.8, `nil.type` is `NilClass`, the test is false and line 204 runs. | A paragraph `term`, then the lines ": " and "" (an empty line). The definition's buffer is "\n", which the block parser turns into a lone blank element. | The definition ends empty, gives up the blank to the tree after the list, and is marked `first_is_block`; its `first_as_para` option stays. This is the repair that guards line 199 with `it.children.first && ...`: the test is then false, so the else branch at line 204 runs and `options.delete` is not reached. It is chosen because it is what the same code does on Ruby 1.8, so it keeps the behaviour kramdown had where nothing raised. The other candidate, `next if it.children.empty?` after line 198, would leave the options unchanged; the model does not follow it. | not executed | DefinitionList.FinalizeDefinitionAsWritten, ListParsers.LoneBlankDefinition | DefinitionList.FinalizeDefinition, DefinitionList.SettledLoneBlank |
