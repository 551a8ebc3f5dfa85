# md2biki converter model

A Dafny model of `MarkdownToBacklogConverter`, the renderer of md2biki. It
turns a Markdown syntax tree (mdast, as produced by remark with GFM) into
Backlog wiki markup. The model covers every node type the converter
distinguishes:

- headings: stars clamped to six;
- paragraphs: blank line, none inside a list item;
- text: line feeds become `&br;` and the four wiki-significant pairs are escaped;
- bold `''`, italic `'''` and strike-through `%%`;
- inline code and code blocks: the language tag is dropped;
- links: bare URL or `[[text>url]]`;
- images: `#image(url)`;
- lists and list items: bullets `-`/`+` repeated by depth;
- blockquotes: `>` or `{quote}`;
- tables: a header row with `|h`, the separator row dropped;
- stray table rows, line and thematic breaks.

The converter keeps two mutable fields, `listDepth` and `orderedListStack`.
`Converter.Exec` threads them explicitly: it takes their values before a node
and returns the text together with their values after it. Every member of
the walk proves that the fields come back as they went in. The other
modules state what each node renders to against independent references:

- `Rendering.RenderAll`: each child rendered from the same field values;
- `Escape.EscapeScan`: a single escaping scan;
- `Lists.ItemContent`: a list item's content;
- `Tables.TableLines`: the table layout row by row.

Modules:

- `Strings`: the JavaScript string operations the converter uses (`split`,
  `join`, `repeat`, `trim`, `includes`, `startsWith`, literal global
  `replace`).
- `Escape`: `escapeText` and its properties.
- `Mdast`: the syntax tree.
- `Converter`: the walk and the per-node markup.
- `Rendering`, `Lists`, `Tables`, `Quotes`: what each node type renders to.
- `Examples`: small trees worked through, with the words in them as parameters.

## Model

| member | source | states |
|---|---|---|
| Converter.Enter | src/converter.ts:211-224 | entering a list keeps the depth equal to the number of open lists, makes the bullet `+` exactly for an ordered list, and leaving the list afterwards restores both fields exactly |
| Converter.Exec | src/converter.ts:99-170 | processing any node, whatever its type, hands `listDepth` and `orderedListStack` back with the values they had before |
| Converter.ProcessList | src/converter.ts:211-224 | the push and the pop of a list balance: the depth and the stack after the list equal those before it, at every nesting level |
| Converter.ExecKids | src/converter.ts:172-175 | rendering a node's children, with that node as their parent, leaves the list fields as it found them |
| Converter.ExecSeq | src/converter.ts:216-218 | rendering a sequence of siblings leaves the list fields as it found them |
| Converter.ExecItem | src/converter.ts:231-243 | the loop over a list item's children reports a nested list exactly when some child is a list, and leaves the list fields as it found them |
| Converter.ExecCells | src/converter.ts:296-298 | a row yields one rendered cell per cell node, and the list fields are left as they were |
| Converter.ExecRows | src/converter.ts:273-290 | the table's row loop leaves the list fields as it found them |
| Converter.TextMarkup | src/converter.ts:116-120 | splitting at line feeds, joining with `&br;` and then the four escaping passes is one escaping scan of the text with every line feed replaced by `&br;` |
| Converter.HeadingMarkup | src/converter.ts:177-183 | the heading line is min(depth, 6) stars, one space, exactly the content, then a blank line; its length is the sum of these parts |
| Converter.LinkMarkup | src/converter.ts:190-199 | the markup is the bare URL exactly when the rendered text equals the URL; otherwise it is `[[text>url]]` |
| Converter.ImageMarkup | src/converter.ts:201-209 | the absolute-URL branch and the relative-URL branch give the same markup, `#image(url)` followed by a line feed |
| Converter.ItemMarkup | src/converter.ts:245-252 | the split-and-rejoin reassembly used for an item with a nested list gives the content back unchanged; the trailing line feed is lost exactly when the item has a nested list and its content spans several lines |
| Converter.QuoteMarkupForms | src/converter.ts:255-267 | the output starts with `{quote}` and a line feed exactly when the trimmed content contains `&br;`; the block form turns every `&br;` into a line feed, the other form is `>` and the content |
| Converter.TrimAll | src/converter.ts:274-276 | each cell is trimmed on its own, and the number of cells is kept |
| Strings.Repeat | src/converter.ts:180 | `repeat` gives exactly `n` copies of the character, and nothing for a count that is not positive |
| Strings.Split | src/converter.ts:249 | `split` on one character gives at least one piece, no piece contains the separator, and a string without the separator is its own single piece |
| Strings.ReplaceChar | src/converter.ts:119 | a string without the character is unchanged, and a replacement without the character removes it entirely |
| Strings.ReplaceAll | src/converter.ts:262 | a global literal replacement leaves a string without the pattern unchanged |
| Strings.Trim | src/converter.ts:245 | the result of `trim` starts and ends with a character that is not whitespace, or is empty |
| Strings.JoinSplit | src/converter.ts:119 | `split('\n').join('&br;')` replaces every line feed by `&br;` and changes nothing else |
| Strings.SplitJoinIdentity | src/converter.ts:249 | splitting at a character and joining with that same character gives the string back |
| Strings.HeadThenRest | src/converter.ts:249 | the first piece, the separator, then the other pieces joined give the string back when it held the separator, and the string plus a separator when it did not |
| Strings.TrimUnique | src/converter.ts:245 | `trim` keeps exactly the trimmed middle of any string made of whitespace, a trimmed middle, and whitespace |
| Strings.TrimDropsTrailingSpace | src/converter.ts:256 | trailing whitespace after trimmed content, such as a paragraph's blank line, is exactly what `trim` removes |
| Strings.ReplaceCharShape | src/converter.ts:119 | replacing a character never shortens the text, lengthens it when the character occurs and the replacement is longer, and keeps first and last characters that are not the replaced one |
| Strings.ReplacedCharShowsToken | src/converter.ts:258 | once line feeds are replaced, the token is present whenever the text had a line feed; this is what makes the quote's multi-line test fire |
| Strings.BreakTokenRoundTrip | src/converter.ts:262 | for text that does not already contain the token, turning the tokens back into line feeds undoes replacing line feeds by the token |
| Escape.EscapePair | src/converter.ts:304-307 | one replacement pass leaves text without its character unchanged |
| Escape.EscapeTextIsScan | src/converter.ts:302-308 | the four replacement passes in a row give the same result as one left-to-right scan that escapes every doubled special character |
| Escape.ScanUnchangedIff | src/converter.ts:302-308 | escaping changes a text exactly when it holds `\|\|`, `%%`, `[[` or `]]`, and it never shortens the text |
| Escape.UnescapeScan | src/converter.ts:302-308 | on text without backslashes, escaping is undone by removing the inserted backslashes |
| Escape.EscapeLosesBackslashes | src/converter.ts:302-308 | escaping is not injective: for each special character, an already escaped pair and a raw pair render the same |
| Escape.BreaksNeedNoEscape | src/converter.ts:116-120 | replacing line feeds by `&br;` creates no special pair: text that needed no escaping still needs none |
| Rendering.SeqIsConcat | src/converter.ts:172-175 | because each child hands the fields back, rendering siblings one after another is each sibling rendered from the parent's field values, concatenated |
| Rendering.KidsIsConcat | src/converter.ts:172-175 | `processChildren` of a node with children is the concatenation of each child rendered on its own with that node as parent, so the children see a list item as parent exactly when the node is one |
| Rendering.KidsOfLeaf | src/converter.ts:173 | `processChildren` of a node without children is empty |
| Rendering.UnknownLeaf | src/converter.ts:167-168 | a node of an unrecognised type that has no children renders as nothing |
| Rendering.PassThrough | src/converter.ts:99-170 | root, table cell and unrecognised node types give their children's rendering unchanged; a paragraph adds a blank line, except when its parent is a list item |
| Rendering.HeadingShape | src/converter.ts:177-183 | a heading is min(depth, 6) stars, a space, the rendered children and a blank line; every level from six upward renders like level six |
| Rendering.InlineMarkers | src/converter.ts:122-129 | bold, italic and strike-through wrap their rendered children in `''`, `'''` and `%%` on both sides |
| Rendering.RawValues | src/converter.ts:131-135 | inline code and code blocks emit their value verbatim without escaping; a code block's language tag never changes the output |
| Rendering.TextRendering | src/converter.ts:116-120 | a text run renders as itself exactly when it has neither a line feed nor a doubled special character |
| Rendering.LinkIdentity | src/converter.ts:190-199 | a link renders as its bare URL exactly when its rendered text is the URL, and as `[[text>url]]` otherwise |
| Rendering.ImageAnyScheme | src/converter.ts:201-209 | an image renders `#image(url)` on its own line, whatever its URL's scheme and whatever its alternative text |
| Rendering.TableRowFallback | src/converter.ts:295-300 | a table row outside a table renders its cells untrimmed between bars, one cell per cell node, each cell being its children's rendering with the cell as their parent |
| Rendering.CellsAreKids | src/converter.ts:274-276 | each rendered cell is its own children's rendering from the row's field values with the cell as their parent (a list item in a cell's place drops its paragraphs' blank lines), and empty for a cell without children |
| Rendering.Breaks | src/converter.ts:161-165 | a line break renders `&br;` and a thematic break `----` and a blank line |
| Lists.ItemLoopIsContent | src/converter.ts:234-243 | the item loop accumulates each child's contribution from the item's field values: a paragraph's children, a line feed then a nested list, or another child rendered under the item; it flags a nested list exactly when there is one |
| Lists.ListShape | src/converter.ts:211-224 | a list renders its items one level deeper with its own ordered flag pushed, adds a line feed only when no list was open, and restores the fields |
| Lists.ItemShape | src/converter.ts:226-253 | an item is its bullet once per open list, a space, its trimmed content, and a line feed unless it has a nested list and the content spans several lines |
| Lists.ItemLineEnding | src/converter.ts:245-252 | an item's output ends in a line feed exactly when it does not hold a nested list below content spanning several lines |
| Lists.ItemInList | src/converter.ts:227-229 | an item directly inside a list gets one bullet per open list, every bullet `+` for an ordered list and `-` otherwise |
| Tables.LaterRowsAreBody | src/converter.ts:284-289 | from the fourth row on, and from the third when the second row was kept, every row is a plain body line |
| Tables.RowLoopLayout | src/converter.ts:273-290 | the row loop from the first row produces the reference layout |
| Tables.FromSecondRow | src/converter.ts:278-286 | from the second row on, a separator row is dropped and then the following row is a header line; without a separator every row is a body line |
| Tables.TableLayout | src/converter.ts:269-293 | row 0 is a header line; row 1 is dropped exactly when every trimmed cell is a run of dashes (vacuously so for no cells), and then row 2 is a header line too; every other row is a body line; one line feed closes the table |
| Quotes.BlockquoteForms | src/converter.ts:255-267 | a blockquote takes the `{quote}` form exactly when its trimmed rendered children contain `&br;`, with every token turned back into a line feed; otherwise it is `>` and the content |
| Quotes.QuoteIsMarkup | src/converter.ts:255-267 | a blockquote applies the quote markup to the concatenation of its children rendered on their own |
| Quotes.QuotedParagraph | src/converter.ts:107-120 | a quoted paragraph of text needing no escaping contributes the text with its line feeds replaced by `&br;`, then a blank line |
| Quotes.QuotedContent | src/converter.ts:256 | after trimming, what the quote sees for one paragraph of trimmed text is that text with its line feeds replaced by `&br;` |
| Quotes.MultiLineQuote | src/converter.ts:258-263 | quoting one paragraph of several lines gives a `{quote}` block holding exactly those lines |
| Quotes.SingleLineQuote | src/converter.ts:266 | quoting one single-line paragraph gives `>` followed by the line |
| Examples.PlainItem | src/converter.ts:252 | an item with one paragraph of plain text is its bullets, a space, the text and a line feed |
| Examples.InnerList | src/converter.ts:223 | a list nested one level down renders `--`, the text and a line feed, with no extra line feed after the list |
| Examples.NestedItemContent | src/converter.ts:234-243 | an item holding text and then a nested list accumulates the text, a line feed and the nested list's line |
| Examples.ItemWithNestedList | src/converter.ts:248-249 | an item with a nested list gives `- b`, a line feed and `-- c`, and it ends without a line feed |
| Examples.SiblingAfterNestedList | src/converter.ts:249 | a sibling item after an item with a nested list starts on the nested list's last line, giving `-- c- d` |
| Examples.PairsAroundPlainText | src/converter.test.ts:249-254 | a doubled special character on each side of plain text is escaped on both sides and the text between is copied, as with `%%Not struck%%` |
| Examples.ItemInCellPlace | src/converter.ts:107-114 | a list item standing in a cell's place in a stray row reaches the list-item-parent branch of the paragraph case: the row is `\|v\|` with no blank line |

## Left out

- `src/cli.ts`: the command-line wrapper is not part of this model. It handles file and console I/O.
- Parsing (src/converter.ts:90-97): the unified/remark/GFM parser is foreign code. `Converter.Convert` starts from the tree the parser produced, rendered by a fresh converter.
- `async`/`Promise` and the unused `visit` import: they play no part in the output.
- Node fields the converter never reads are not modelled: positions, link titles, table alignment, list `start` and `spread`. An image keeps its `alt` only to show that the output ignores it.
- `Other(children)` stands for every unrecognised node type that has a `children` array, and `OtherLeaf` for every one that has none, such as raw HTML. `OtherLeaf` renders as nothing, as `processChildren` does for a node without `children`; in a table it is a row without children and is excluded like one.
- `Mdast.WellFormed` requires every row of a table to have children. In the source, a row without children makes `row.children.map` throw a TypeError, and that error path is not modelled.
- `Strings.Repeat`: a negative count, which throws a RangeError in JavaScript, yields the empty string. The walk never produces one: the depth is never negative inside a list, and a heading's depth is a `nat`.
- `Strings.Trim` uses the ECMAScript WhiteSpace and LineTerminator set. Code points that Unicode added to or dropped from that set after ECMAScript's table are not tracked.
- Regular expressions are modelled only as the literal patterns the converter uses: `^-+$`, `/&br;/g` and the four escape patterns.
- Code blocks drop the language tag, as src/converter.ts:185-188 does. The test at src/converter.test.ts:154-171 expects `{code:java}`. The model follows the code.
- Kept as written in the source, not corrected:
  - an item holding a nested list loses its trailing line feed (src/converter.ts:249);
  - the table rules look at fixed row positions (src/converter.ts:279-289).
- The paragraph branch for a list-item parent (src/converter.ts:111-112) is modelled. It is reached only when a list item stands where a table cell should be: `processListItem` renders its own paragraph children through `processChildren` of the paragraph, never of the item.
- Strings.ReplaceAll: its contract states only the no-occurrence case. The full meaning of the replacement is carried by `Strings.BreakTokenRoundTrip` and `Converter.QuoteMarkupForms`.
