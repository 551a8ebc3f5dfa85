/**
  The tree-to-wiki-markup renderer (`MarkdownToBacklogConverter`).

  The converter keeps two mutable fields, the list nesting depth and a stack
  of "is this list ordered" flags. `Exec` threads them explicitly: it takes
  the fields' values before a node is processed and returns the rendered
  text together with their values afterwards, pushing and popping exactly
  where the converter does. Each member's contract states that the fields
  come back as they went in.
 */
module Converter {
  import opened Strings
  import opened Escape
  import opened Mdast

  /** The converter's `listDepth` and `orderedListStack` fields. */
  datatype State = State(depth: int, ordered: seq<bool>)

  /** Rendered text and the fields' values after rendering it. */
  datatype Step = Step(out: string, st: State)

  /** What the loop over a list item's children accumulates: the content,
      whether a nested list was met, and the fields' values. */
  datatype ItemStep = ItemStep(content: string, nested: bool, st: State)

  /** The rendered cells of a table row, and the fields' values. */
  datatype CellStep = CellStep(cells: seq<string>, st: State)

  /** The fields of a freshly constructed converter. */
  const Initial: State := State(0, [])

  /** The depth matches the number of open lists. */
  predicate Consistent(st: State) {
    st.depth == |st.ordered|
  }

  /** Entering a list: `listDepth++` and push of the `ordered` flag. */
  function Enter(st: State, ordered: bool): (r: State)
    ensures Consistent(st) ==> Consistent(r)
    ensures Bullet(r) == if ordered then '+' else '-'
    ensures Exit(r) == st
  {
    State(st.depth + 1, st.ordered + [ordered])
  }

  /** Leaving a list: pop (a no-op on an empty stack) and `listDepth--`. */
  function Exit(st: State): State {
    State(st.depth - 1, if |st.ordered| == 0 then [] else st.ordered[..|st.ordered| - 1])
  }

  /** The bullet of a list item: `+` inside an ordered list, `-` otherwise
      (also when no list is open, where the stack's top is `undefined`). */
  function Bullet(st: State): char {
    if |st.ordered| > 0 && st.ordered[|st.ordered| - 1] then '+' else '-'
  }

  // ---------------------------------------------------------------------
  // Markup of the individual node types, given their rendered content
  // ---------------------------------------------------------------------

  /** A text node: line feeds become `&br;`, then the special pairs are
      escaped. The result is a single escaping scan of the text with its line
      feeds replaced. */
  function TextMarkup(v: string): (r: string)
    ensures r == EscapeScan(ReplaceChar(v, '\n', "&br;"))
  {
    JoinSplit(v, '\n', "&br;");
    EscapeTextIsScan(ReplaceChar(v, '\n', "&br;"));
    EscapeText(Join(Split(v, '\n'), "&br;"))
  }

  function Min(a: int, b: int): int {
    if a < b then a else b
  }

  /** A heading: the level in stars, clamped to six, a space, the content and
      a blank line. */
  function HeadingMarkup(depth: nat, content: string): (r: string)
    ensures |r| == Min(depth, 6) + 1 + |content| + 2
    ensures forall i :: 0 <= i < Min(depth, 6) ==> r[i] == '*'
    ensures r[Min(depth, 6)] == ' '
    ensures r[Min(depth, 6) + 1..|r| - 2] == content
    ensures r[|r| - 2..] == "\n\n"
  {
    Repeat('*', Min(depth, 6)) + " " + content + "\n\n"
  }

  /** A fenced code block: the language tag is never emitted. */
  function CodeBlockMarkup(value: string): string {
    "{code}\n" + value + "\n{/code}\n\n"
  }

  /** A link: the bare URL when the rendered text is the URL itself,
      `[[text>url]]` otherwise. */
  function LinkMarkup(text: string, url: string): (r: string)
    ensures r == url <==> text == url
    ensures text != url ==> r == "[[" + text + ">" + url + "]]"
  {
    if text == url then url else "[[" + text + ">" + url + "]]"
  }

  /** An image: the same markup whether the URL is absolute or relative. */
  function ImageMarkup(url: string): (r: string)
    ensures r == "#image(" + url + ")\n"
  {
    if StartsWith(url, "http://") || StartsWith(url, "https://") then "#image(" + url + ")\n"
    else "#image(" + url + ")\n"
  }

  /** The line(s) of a list item from its trimmed content. With a nested
      list the content is split at line feeds and reassembled; this gives
      the content back unchanged and drops the trailing line feed whenever
      the content spans several lines. */
  function ItemMarkup(prefix: string, content: string, nested: bool): (r: string)
    ensures r == prefix + " " + content + (if nested && '\n' in content then "" else "\n")
  {
    if nested then
      var parts := Split(content, '\n');
      HeadThenRest(content, '\n');
      assert prefix + " " + parts[0] + "\n" + Join(parts[1..], "\n")
          == prefix + " " + (parts[0] + "\n" + Join(parts[1..], "\n"));
      prefix + " " + parts[0] + "\n" + Join(parts[1..], "\n")
    else
      prefix + " " + content + "\n"
  }

  /** A blockquote from its rendered children: a `{quote}` block with the
      line-break tokens turned back into line feeds when the trimmed content
      has one, a single `>` line otherwise. */
  function QuoteMarkup(rendered: string): string {
    var content := Trim(rendered);
    if Contains(content, "&br;") then
      "{quote}\n" + ReplaceAll(content, "&br;", "\n") + "\n{/quote}\n\n"
    else
      ">" + content + "\n\n"
  }

  /** The two forms are told apart by their first characters: only the
      block form starts with `{quote}` and a line feed. */
  lemma QuoteMarkupForms(rendered: string)
    ensures var content := Trim(rendered);
      var r := QuoteMarkup(rendered);
      && (StartsWith(r, "{quote}\n") <==> Contains(content, "&br;"))
      && (Contains(content, "&br;") ==> r == "{quote}\n" + ReplaceAll(content, "&br;", "\n") + "\n{/quote}\n\n")
      && (!Contains(content, "&br;") ==> r == ">" + content + "\n\n")
  {
    var r := QuoteMarkup(rendered);
    assert |r| > 0;
    assert r[0] == '{' <==> Contains(Trim(rendered), "&br;");
    if Contains(Trim(rendered), "&br;") {
      assert r[..8] == "{quote}\n";
    }
  }

  /** A table row from its cells: `|a|b|` then `h` for a header row. */
  function RowMarkup(cells: seq<string>, header: bool): string {
    "|" + Join(cells, "|") + (if header then "|h\n" else "|\n")
  }

  /** A cell matching `^-+$`. */
  predicate IsSeparatorCell(cell: string) {
    |cell| > 0 && forall i :: 0 <= i < |cell| ==> cell[i] == '-'
  }

  /** A row whose every cell matches `^-+$` (vacuously so for no cells). */
  predicate IsSeparatorRow(cells: seq<string>) {
    forall i :: 0 <= i < |cells| ==> IsSeparatorCell(cells[i])
  }

  function TrimAll(cells: seq<string>): (r: seq<string>)
    ensures |r| == |cells|
    ensures forall i :: 0 <= i < |r| ==> r[i] == Trim(cells[i])
  {
    if |cells| == 0 then [] else [Trim(cells[0])] + TrimAll(cells[1..])
  }

  // ---------------------------------------------------------------------
  // The walk
  // ---------------------------------------------------------------------

  /** `processNode(node, parent)`; `underItem` says whether `parent` is a
      list item, the only thing about the parent the converter looks at.
      Each node type with its own `process…` method is handed to the
      function of the same name. */
  function Exec(n: Node, underItem: bool, st: State): (r: Step)
    requires WellFormed(n)
    ensures r.st == st
    decreases n, 2
  {
    match n
    case Root(_) => ExecKids(n, st)
    case Heading(_, _) => ProcessHeading(n, st)
    case Paragraph(_) => ProcessParagraph(n, underItem, st)
    case Text(_) => ProcessText(n, st)
    case Strong(_) =>
      var c := ExecKids(n, st);
      Step("''" + c.out + "''", c.st)
    case Emphasis(_) =>
      var c := ExecKids(n, st);
      Step("'''" + c.out + "'''", c.st)
    case Delete(_) =>
      var c := ExecKids(n, st);
      Step("%%" + c.out + "%%", c.st)
    case InlineCode(v) => Step("{code}" + v + "{/code}", st)
    case Code(_, v) => Step(CodeBlockMarkup(v), st)
    case Link(_, _) => ProcessLink(n, st)
    case Image(_, _) => ProcessImage(n, st)
    case List(_, _) => ProcessList(n, st)
    case ListItem(_) => ProcessListItem(n, st)
    case Blockquote(_) => ProcessBlockquote(n, st)
    case Table(_) => ProcessTable(n, st)
    case TableRow(_) => ProcessTableRow(n, st)
    case TableCell(_) => ExecKids(n, st)
    case Break => Step("&br;", st)
    case ThematicBreak => Step("----\n\n", st)
    case Other(_) => ExecKids(n, st)
    case OtherLeaf => ExecKids(n, st)
  }

  /** `processHeading`. */
  function ProcessHeading(n: Node, st: State): (r: Step)
    requires n.Heading? && WellFormed(n)
    ensures r.st == st
    decreases n, 1
  {
    var c := ExecKids(n, st);
    Step(HeadingMarkup(n.depth, c.out), c.st)
  }

  /** The paragraph case: the children, then a blank line unless the parent
      is a list item. */
  function ProcessParagraph(n: Node, underItem: bool, st: State): (r: Step)
    requires n.Paragraph? && WellFormed(n)
    ensures r.st == st
    decreases n, 1
  {
    var c := ExecKids(n, st);
    if underItem then c else Step(c.out + "\n\n", c.st)
  }

  /** The text case, through `escapeText`. */
  function ProcessText(n: Node, st: State): (r: Step)
    requires n.Text?
    ensures r.st == st
  {
    Step(TextMarkup(n.value), st)
  }

  /** `processLink`. */
  function ProcessLink(n: Node, st: State): (r: Step)
    requires n.Link? && WellFormed(n)
    ensures r.st == st
    decreases n, 1
  {
    var c := ExecKids(n, st);
    Step(LinkMarkup(c.out, n.url), c.st)
  }

  /** `processImage`. */
  function ProcessImage(n: Node, st: State): (r: Step)
    requires n.Image?
    ensures r.st == st
  {
    Step(ImageMarkup(n.url), st)
  }

  /** `processList`: push, render the items, pop, and a line feed after a
      list that was not nested. */
  function ProcessList(n: Node, st: State): (r: Step)
    requires n.List? && WellFormed(n)
    ensures r.st == st
    decreases n, 1
  {
    var wasInList := st.depth > 0;
    var c := ExecSeq(n.children, false, Enter(st, n.ordered));
    Step(if wasInList then c.out else c.out + "\n", Exit(c.st))
  }

  /** `processListItem`. */
  function ProcessListItem(n: Node, st: State): (r: Step)
    requires n.ListItem? && WellFormed(n)
    ensures r.st == st
    decreases n, 1
  {
    var prefix := Repeat(Bullet(st), st.depth);
    var p := ExecItem(n.children, st);
    Step(ItemMarkup(prefix, Trim(p.content), p.nested), p.st)
  }

  /** `processBlockquote`. */
  function ProcessBlockquote(n: Node, st: State): (r: Step)
    requires n.Blockquote? && WellFormed(n)
    ensures r.st == st
    decreases n, 1
  {
    var c := ExecKids(n, st);
    Step(QuoteMarkup(c.out), c.st)
  }

  /** `processTable`: the rows, then a blank line. */
  function ProcessTable(n: Node, st: State): (r: Step)
    requires n.Table? && WellFormed(n)
    ensures r.st == st
    decreases n, 1
  {
    var r := ExecRows(n.children, 0, false, st);
    Step(r.out + "\n", r.st)
  }

  /** `processTableRow`, reached only for a row outside a table. */
  function ProcessTableRow(n: Node, st: State): (r: Step)
    requires n.TableRow? && WellFormed(n)
    ensures r.st == st
    decreases n, 1
  {
    var c := ExecCells(n.children, st);
    Step(RowMarkup(c.cells, false), c.st)
  }

  lemma TextStep(v: string, st: State)
    ensures Exec(Text(v), false, st).out == TextMarkup(v)
  {
    assert Exec(Text(v), false, st) == ProcessText(Text(v), st);
  }

  /** `processChildren(node)`: the children rendered with `node` as their
      parent, concatenated; nothing for a node without children. A list item
      gets here only from a table or a stray row, where it sits in a cell's
      place; its paragraphs then see a list item as parent. */
  function ExecKids(n: Node, st: State): (r: Step)
    requires WellFormed(n)
    ensures r.st == st
    decreases n, 0
  {
    if IsParent(n) then ExecSeq(n.children, n.ListItem?, st) else Step("", st)
  }

  /** Siblings rendered in order, each from the fields the previous one
      left, and concatenated. */
  function ExecSeq(cs: seq<Node>, underItem: bool, st: State): (r: Step)
    requires AllWellFormed(cs)
    ensures r.st == st
    decreases cs, 3
  {
    if |cs| == 0 then Step("", st)
    else
      var h := Exec(cs[0], underItem, st);
      var t := ExecSeq(cs[1..], underItem, h.st);
      Step(h.out + t.out, t.st)
  }

  /** The loop of `processListItem` over the item's children: a paragraph
      contributes its children's rendering, a nested list a line feed and
      its rendering, anything else its rendering with the item as parent. */
  function ExecItem(cs: seq<Node>, st: State): (r: ItemStep)
    requires AllWellFormed(cs)
    ensures r.st == st
    ensures r.nested <==> exists i :: 0 <= i < |cs| && cs[i].List?
    decreases cs, 3
  {
    if |cs| == 0 then ItemStep("", false, st)
    else
      var child := cs[0];
      var h :=
        if child.Paragraph? then ExecKids(child, st)
        else if child.List? then
          var l := Exec(child, true, st);
          Step("\n" + l.out, l.st)
        else Exec(child, true, st);
      var t := ExecItem(cs[1..], h.st);
      assert forall i :: 1 <= i < |cs| ==> cs[i] == cs[1..][i - 1];
      ItemStep(h.out + t.content, child.List? || t.nested, t.st)
  }

  /** The cells of a row, each rendered with `processChildren`. */
  function ExecCells(cells: seq<Node>, st: State): (r: CellStep)
    requires AllWellFormed(cells)
    ensures r.st == st
    ensures |r.cells| == |cells|
    decreases cells, 3
  {
    if |cells| == 0 then CellStep([], st)
    else
      var h := ExecKids(cells[0], st);
      var t := ExecCells(cells[1..], h.st);
      CellStep([h.out] + t.cells, t.st)
  }

  /** The `forEach` of `processTable` from position `index` on: row 1 is
      dropped when all its trimmed cells are runs of dashes, row 0 is a
      header, and so is row 2 once row 1 was dropped. */
  function ExecRows(rows: seq<Node>, index: nat, headerProcessed: bool, st: State): (r: Step)
    requires AllWellFormed(rows)
    requires forall i :: 0 <= i < |rows| ==> IsParent(rows[i])
    ensures r.st == st
    decreases rows, 3
  {
    if |rows| == 0 then Step("", st)
    else
      var c := ExecCells(rows[0].children, st);
      var cells := TrimAll(c.cells);
      if index == 1 && IsSeparatorRow(cells) then
        ExecRows(rows[1..], index + 1, true, c.st)
      else
        var t := ExecRows(rows[1..], index + 1, headerProcessed, c.st);
        Step(RowMarkup(cells, index == 0 || (index == 2 && headerProcessed)) + t.out, t.st)
  }

  /** `processNode(node)` with no parent, from the given field values. */
  function Render(n: Node, st: State): string
    requires WellFormed(n)
  {
    Exec(n, false, st).out
  }

  /** `convert`, once the parser has produced the tree: a fresh converter
      renders it. */
  function Convert(tree: Node): string
    requires WellFormed(tree)
  {
    Render(tree, Initial)
  }
}
