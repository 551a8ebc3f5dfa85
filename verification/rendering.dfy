/**
  What the converter emits for each node type, stated against the children
  rendered independently from the same field values (`RenderAll`), which is
  what the converter's restoring of its fields amounts to.
 */
module Rendering {
  import opened Strings
  import opened Escape
  import opened Mdast
  import opened Converter

  /** Reference: every child rendered from the same field values, the
      results concatenated. */
  function RenderAll(cs: seq<Node>, underItem: bool, st: State): string
    requires AllWellFormed(cs)
    decreases |cs|
  {
    if |cs| == 0 then "" else Exec(cs[0], underItem, st).out + RenderAll(cs[1..], underItem, st)
  }

  /** Because every child hands the fields back unchanged, rendering the
      children in sequence is rendering each of them from the parent's
      field values. */
  lemma {:induction false} SeqIsConcat(cs: seq<Node>, underItem: bool, st: State)
    requires AllWellFormed(cs)
    ensures ExecSeq(cs, underItem, st).out == RenderAll(cs, underItem, st)
    decreases |cs|
  {
    if |cs| > 0 {
      SeqIsConcat(cs[1..], underItem, st);
    }
  }

  /** `processChildren` of a node with children is `RenderAll` of them, each
      child seeing the node as its parent: a list item as parent only when
      the node is one. */
  lemma KidsIsConcat(n: Node, st: State)
    requires WellFormed(n) && IsParent(n)
    ensures ExecKids(n, st).out == RenderAll(n.children, n.ListItem?, st)
  {
    SeqIsConcat(n.children, n.ListItem?, st);
  }

  /** A node without children contributes nothing through `processChildren`. */
  lemma KidsOfLeaf(n: Node, st: State)
    requires WellFormed(n) && !IsParent(n)
    ensures ExecKids(n, st).out == ""
  {
  }

  /** A node of an unrecognised type without children renders as nothing. */
  lemma UnknownLeaf(st: State)
    ensures Render(OtherLeaf, st) == ""
  {
  }

  /** Root, table cell and unrecognised node types pass their children's
      rendering through unchanged; a paragraph adds a blank line, except when
      its parent is a list item. */
  lemma {:induction false} PassThrough(cs: seq<Node>, st: State)
    requires AllWellFormed(cs)
    ensures Render(Root(cs), st) == RenderAll(cs, false, st)
    ensures Render(TableCell(cs), st) == RenderAll(cs, false, st)
    ensures Render(Other(cs), st) == RenderAll(cs, false, st)
    ensures Render(Paragraph(cs), st) == RenderAll(cs, false, st) + "\n\n"
    ensures Exec(Paragraph(cs), true, st).out == RenderAll(cs, false, st)
  {
    Transparent(Root(cs), st);
    Transparent(TableCell(cs), st);
    Transparent(Other(cs), st);
    ParagraphStep(Paragraph(cs), false, st);
    ParagraphStep(Paragraph(cs), true, st);
  }

  lemma Transparent(n: Node, st: State)
    requires n.Root? || n.TableCell? || n.Other?
    requires AllWellFormed(n.children)
    ensures WellFormed(n)
    ensures Render(n, st) == RenderAll(n.children, false, st)
  {
    assert WellFormed(n);
    KidsIsConcat(n, st);
  }

  lemma ParagraphStep(n: Node, underItem: bool, st: State)
    requires n.Paragraph? && AllWellFormed(n.children)
    ensures WellFormed(n)
    ensures Exec(n, underItem, st).out == RenderAll(n.children, false, st) + (if underItem then "" else "\n\n")
  {
    assert WellFormed(n);
    KidsIsConcat(n, st);
    assert Exec(n, underItem, st) == ProcessParagraph(n, underItem, st);
  }

  /** A heading is its level in stars (at most six), one space, the
      rendered children and a blank line; levels beyond six all render as
      six. */
  lemma {:induction false} HeadingShape(depth: nat, cs: seq<Node>, st: State)
    requires AllWellFormed(cs)
    ensures var r := Render(Heading(depth, cs), st);
      var k := Min(depth, 6);
      && |r| == k + 1 + |RenderAll(cs, false, st)| + 2
      && (forall i :: 0 <= i < k ==> r[i] == '*')
      && r[k] == ' '
      && r[k + 1..|r| - 2] == RenderAll(cs, false, st)
      && r[|r| - 2..] == "\n\n"
    ensures depth >= 6 ==> Render(Heading(depth, cs), st) == Render(Heading(6, cs), st)
  {
    assert WellFormed(Heading(depth, cs)) && WellFormed(Heading(6, cs));
    KidsIsConcat(Heading(depth, cs), st);
    KidsIsConcat(Heading(6, cs), st);
    assert Render(Heading(depth, cs), st) == ProcessHeading(Heading(depth, cs), st).out;
    assert Render(Heading(6, cs), st) == ProcessHeading(Heading(6, cs), st).out;
  }

  /** Bold, italic and strike-through wrap the rendered children in `''`,
      `'''` and `%%`. */
  lemma {:induction false} InlineMarkers(cs: seq<Node>, st: State)
    requires AllWellFormed(cs)
    ensures Render(Strong(cs), st) == "''" + RenderAll(cs, false, st) + "''"
    ensures Render(Emphasis(cs), st) == "'''" + RenderAll(cs, false, st) + "'''"
    ensures Render(Delete(cs), st) == "%%" + RenderAll(cs, false, st) + "%%"
  {
    Wrapped(Strong(cs), "''", st);
    Wrapped(Emphasis(cs), "'''", st);
    Wrapped(Delete(cs), "%%", st);
  }

  lemma Wrapped(n: Node, mark: string, st: State)
    requires n.Strong? || n.Emphasis? || n.Delete?
    requires AllWellFormed(n.children)
    requires mark == if n.Strong? then "''" else if n.Emphasis? then "'''" else "%%"
    ensures WellFormed(n)
    ensures Render(n, st) == mark + RenderAll(n.children, false, st) + mark
  {
    assert WellFormed(n);
    KidsIsConcat(n, st);
  }

  /** Code values are emitted verbatim, never escaped, and the code block's
      language tag never shows: blocks differing only in their tag render
      alike. */
  lemma RawValues(v: string, lang: Option<string>, st: State)
    ensures Render(InlineCode(v), st) == "{code}" + v + "{/code}"
    ensures Render(Code(lang, v), st) == "{code}\n" + v + "\n{/code}\n\n"
    ensures Render(Code(lang, v), st) == Render(Code(None, v), st)
  {
  }

  /** A text run is the escaping scan of the text with line feeds replaced
      by `&br;`; it renders as itself exactly when it has neither a line feed
      nor a doubled special character. */
  lemma TextRendering(v: string, st: State)
    ensures Render(Text(v), st) == EscapeScan(ReplaceChar(v, '\n', "&br;"))
    ensures Render(Text(v), st) == v <==> '\n' !in v && !HasSpecialPair(v)
  {
    var w := ReplaceChar(v, '\n', "&br;");
    TextStep(v, st);
    ReplaceCharShape(v, '\n', "&br;");
    ScanUnchangedIff(w);
  }

  /** A link renders as its bare URL exactly when its rendered text is the
      URL, and as `[[text>url]]` otherwise. */
  lemma {:induction false} LinkIdentity(url: string, cs: seq<Node>, st: State)
    requires AllWellFormed(cs)
    ensures Render(Link(url, cs), st) == url <==> RenderAll(cs, false, st) == url
    ensures RenderAll(cs, false, st) != url ==>
      Render(Link(url, cs), st) == "[[" + RenderAll(cs, false, st) + ">" + url + "]]"
  {
    assert WellFormed(Link(url, cs));
    LinkDispatch(Link(url, cs), st);
    KidsIsConcat(Link(url, cs), st);
  }

  lemma LinkDispatch(n: Node, st: State)
    requires n.Link? && WellFormed(n)
    ensures Render(n, st) == LinkMarkup(ExecKids(n, st).out, n.url)
  {
    assert Exec(n, false, st) == ProcessLink(n, st);
  }

  /** An image is `#image(url)` on its own line, whatever the URL's scheme
      and whatever its alternative text. */
  lemma ImageAnyScheme(url: string, alt: string, st: State)
    ensures Render(Image(url, alt), st) == "#image(" + url + ")\n"
  {
  }

  /** The table-row branch of `processNode`, reached only outside a table:
      the rendered cells, untrimmed, between bars, each cell's children
      rendered with the cell as their parent. */
  lemma {:induction false} TableRowFallback(cells: seq<Node>, st: State)
    requires AllWellFormed(cells)
    ensures Render(TableRow(cells), st) == "|" + Join(ExecCells(cells, st).cells, "|") + "|\n"
    ensures |ExecCells(cells, st).cells| == |cells|
    ensures forall i :: 0 <= i < |cells| && IsParent(cells[i]) ==>
      ExecCells(cells, st).cells[i] == RenderAll(cells[i].children, cells[i].ListItem?, st)
  {
    assert WellFormed(TableRow(cells));
    assert Render(TableRow(cells), st) == ProcessTableRow(TableRow(cells), st).out;
    CellsAreKids(cells, st);
  }

  /** Each rendered cell is its children's rendering from the row's field
      values (nothing for a cell without children), with the cell as their
      parent: a list item in a cell's place makes its paragraphs drop their
      blank line. */
  lemma {:induction false} CellsAreKids(cells: seq<Node>, st: State)
    requires AllWellFormed(cells)
    ensures forall i :: 0 <= i < |cells| ==>
      ExecCells(cells, st).cells[i] == ExecKids(cells[i], st).out
    ensures forall i :: 0 <= i < |cells| && IsParent(cells[i]) ==>
      ExecCells(cells, st).cells[i] == RenderAll(cells[i].children, cells[i].ListItem?, st)
    decreases |cells|
  {
    if |cells| > 0 {
      CellsAreKids(cells[1..], st);
      var r := ExecCells(cells, st);
      assert r.cells == [ExecKids(cells[0], st).out] + ExecCells(cells[1..], st).cells;
      forall i | 0 <= i < |cells| && IsParent(cells[i])
        ensures r.cells[i] == RenderAll(cells[i].children, cells[i].ListItem?, st)
      {
        KidsIsConcat(cells[i], st);
        if i > 0 {
          assert cells[i] == cells[1..][i - 1];
        }
      }
    }
  }

  /** The line break and the thematic break are fixed tokens. */
  lemma Breaks(st: State)
    ensures Render(Break, st) == "&br;"
    ensures Render(ThematicBreak, st) == "----\n\n"
  {
  }
}
