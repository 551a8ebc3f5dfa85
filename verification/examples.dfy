/**
  Worked examples: concrete trees and what the converter makes of them.
 */
module Examples {
  import opened Strings
  import opened Escape
  import opened Mdast
  import opened Converter
  import opened Rendering
  import opened Lists

  /** A one-paragraph item holding the text `v`. */
  function Item(v: string): Node {
    ListItem([Paragraph([Text(v)])])
  }

  /** Text that renders as itself and survives trimming. */
  predicate Plain(v: string) {
    |v| > 0 && '\n' !in v && !HasSpecialPair(v) && IsTrimmed(v)
  }

  /** Plain text renders as itself when it is the only child. */
  lemma OnlyText(v: string, st: State)
    requires Plain(v)
    ensures AllWellFormed([Text(v)])
    ensures RenderAll([Text(v)], false, st) == v
  {
    assert WellFormed(Text(v));
    TextRendering(v, st);
    assert [Text(v)][1..] == [];
  }

  /** An item with one paragraph of plain text and no nested list: the
      bullets, a space, the text and a line feed. */
  lemma PlainItem(v: string, st: State)
    requires Plain(v)
    ensures WellFormed(Item(v))
    ensures Exec(Item(v), false, st).out == Repeat(Bullet(st), st.depth) + " " + v + "\n"
  {
    var cs := [Paragraph([Text(v)])];
    OnlyText(v, st);
    assert WellFormed(cs[0]) && WellFormed(Item(v));
    assert ItemContent(cs, st) == ChildContent(cs[0], st) + ItemContent(cs[1..], st);
    assert cs[1..] == [];
    assert !HasNestedList(cs);
    assert AllSpace("");
    TrimDropsTrailingSpace(v, "");
    assert v + "" == v;
    ItemShape(cs, false, st);
  }

  /** A list nested one level down, with one plain item: two bullets, the
      text, a line feed, and no extra line feed after the list. */
  lemma InnerList(c: string)
    requires Plain(c)
    ensures WellFormed(List(false, [Item(c)]))
    ensures Exec(List(false, [Item(c)]), true, State(1, [false])).out == "-- " + c + "\n"
  {
    var st1 := State(1, [false]);
    var st2 := Enter(st1, false);
    assert st2 == State(2, [false, false]);
    assert Repeat('-', 2) == "--";
    PlainItem(c, st2);
    ListShape(false, [Item(c)], true, st1);
    assert [Item(c)][1..] == [];
  }

  /** The content of an item holding plain text `b` and then that nested
      list: `b`, a line feed, and the nested list's line. */
  lemma NestedItemContent(b: string, c: string)
    requires Plain(b) && Plain(c)
    ensures var first := [Paragraph([Text(b)]), List(false, [Item(c)])];
      && AllWellFormed(first)
      && ItemContent(first, State(1, [false])) == b + "\n-- " + c + "\n"
      && HasNestedList(first)
  {
    var tail := "-- " + c + "\n";
    assert b + "\n" + tail == b + "\n-- " + c + "\n";
    var st1 := State(1, [false]);
    ParagraphContent(b, st1);
    InnerListContent(c);
    TextThenList(Paragraph([Text(b)]), List(false, [Item(c)]), b, tail, st1);
  }

  /** An item whose first child contributes `b` and whose second child is a
      list contributing a line feed and `tail`. */
  lemma TextThenList(p: Node, inner: Node, b: string, tail: string, st: State)
    requires WellFormed(p) && WellFormed(inner) && inner.List?
    requires ChildContent(p, st) == b && ChildContent(inner, st) == "\n" + tail
    ensures AllWellFormed([p, inner]) && HasNestedList([p, inner])
    ensures ItemContent([p, inner], st) == b + "\n" + tail
  {
    TwoItemChildren(p, inner, st);
    assert [p, inner][1].List?;
  }

  /** What the nested list adds to the item holding it. */
  lemma InnerListContent(c: string)
    requires Plain(c)
    ensures WellFormed(List(false, [Item(c)]))
    ensures ChildContent(List(false, [Item(c)]), State(1, [false])) == "\n" + ("-- " + c + "\n")
  {
    InnerList(c);
  }

  lemma ParagraphContent(b: string, st: State)
    requires Plain(b)
    ensures WellFormed(Paragraph([Text(b)]))
    ensures ChildContent(Paragraph([Text(b)]), st) == b
  {
    OnlyText(b, st);
    assert WellFormed(Paragraph([Text(b)]));
  }

  /** The content of an item with two children. */
  lemma TwoItemChildren(m: Node, n: Node, st: State)
    requires WellFormed(m) && WellFormed(n)
    ensures AllWellFormed([m, n])
    ensures ItemContent([m, n], st) == ChildContent(m, st) + ChildContent(n, st)
  {
    assert [m, n][1..] == [n] && [n][1..] == [];
    assert ItemContent([n], st) == ChildContent(n, st) + "";
  }

  /** The trimmed content of that item: the two lines without the final
      line feed. */
  lemma NestedItemTrimmed(b: string, c: string)
    requires Plain(b) && Plain(c)
    ensures var first := [Paragraph([Text(b)]), List(false, [Item(c)])];
      && AllWellFormed(first)
      && HasNestedList(first)
      && Trim(ItemContent(first, State(1, [false]))) == b + "\n-- " + c
      && '\n' in b + "\n-- " + c
  {
    NestedItemContent(b, c);
    var body := b + "\n-- " + c;
    assert body + "\n" == b + "\n-- " + c + "\n";
    assert body[0] == b[0] && body[|body| - 1] == c[|c| - 1];
    assert AllSpace("\n");
    TrimDropsTrailingSpace(body, "\n");
    assert body[|b|] == '\n';
  }

  /** An item holding plain text `b` and then that nested list: its content
      spans two lines, so the item ends without a line feed. */
  lemma ItemWithNestedList(b: string, c: string)
    requires Plain(b) && Plain(c)
    ensures var first := [Paragraph([Text(b)]), List(false, [Item(c)])];
      && WellFormed(ListItem(first))
      && Exec(ListItem(first), false, State(1, [false])).out == "- " + b + "\n-- " + c
  {
    var st1 := State(1, [false]);
    var first := [Paragraph([Text(b)]), List(false, [Item(c)])];
    var body := b + "\n-- " + c;
    assert "-" + " " + body + "" == "- " + b + "\n-- " + c;
    NestedItemTrimmed(b, c);
    ItemShape(first, false, st1);
    assert Repeat(Bullet(st1), st1.depth) == "-";
    assert Exec(ListItem(first), false, st1).out == "-" + " " + body + "";
  }

  /** Two siblings render one after the other. */
  lemma TwoChildren(m: Node, n: Node, underItem: bool, st: State)
    requires WellFormed(m) && WellFormed(n)
    ensures AllWellFormed([m, n])
    ensures RenderAll([m, n], underItem, st) == Exec(m, underItem, st).out + Exec(n, underItem, st).out
  {
    assert [m, n][1..] == [n] && [n][1..] == [];
    assert RenderAll([n], underItem, st) == Exec(n, underItem, st).out + "";
  }

  /** The nested list `- b` / `  - c` followed by a sibling `- d`. The item
      holding the nested list ends without a line feed, so the sibling
      starts on the nested list's last line: the output is `- b`, then
      `-- c- d`, then the blank line closing the list. */
  lemma SiblingAfterNestedList(b: string, c: string, d: string)
    requires Plain(b) && Plain(c) && Plain(d)
    ensures var inner := List(false, [Item(c)]);
      var outer := List(false, [ListItem([Paragraph([Text(b)]), inner]), Item(d)]);
      WellFormed(outer) && Convert(outer) == "- " + b + "\n-- " + c + "- " + d + "\n\n"
  {
    var st1 := State(1, [false]);
    var first := ListItem([Paragraph([Text(b)]), List(false, [Item(c)])]);
    assert ("- " + b + "\n-- " + c) + ("-" + " " + d + "\n") + "\n" == "- " + b + "\n-- " + c + "- " + d + "\n\n";
    ItemWithNestedList(b, c);
    PlainItem(d, st1);
    assert Repeat(Bullet(st1), st1.depth) == "-";
    TwoChildren(first, Item(d), false, st1);
    OuterList(first, Item(d));
  }

  /** A top-level unordered list: its items from depth one, then a line feed. */
  lemma OuterList(m: Node, n: Node)
    requires WellFormed(m) && WellFormed(n)
    ensures WellFormed(List(false, [m, n]))
    ensures Convert(List(false, [m, n])) == RenderAll([m, n], false, State(1, [false])) + "\n"
  {
    assert AllWellFormed([m, n]);
    ListShape(false, [m, n], false, Initial);
  }

  /** A text run `cc…cc` with a doubled special character `c` on each side
      of text without special characters or line feeds: both pairs are
      escaped and the middle is copied, as in `%%Not struck%%`. */
  lemma PairsAroundPlainText(c: char, t: string, st: State)
    requires IsSpecial(c) && '\n' !in t
    requires forall i :: 0 <= i < |t| ==> !IsSpecial(t[i])
    ensures var e := ['\\', c, '\\', c];
      Render(Text([c, c] + t + [c, c]), st) == e + t + e
  {
    var v := [c, c] + t + [c, c];
    assert '\n' !in v by {
      assert forall i :: 0 <= i < |v| ==> v[i] == c || v[i] in t;
    }
    TextRendering(v, st);
    ScanPairsAround(c, t);
  }

  lemma ScanPairsAround(c: char, t: string)
    requires IsSpecial(c)
    requires forall i :: 0 <= i < |t| ==> !IsSpecial(t[i])
    ensures var e := ['\\', c, '\\', c];
      EscapeScan([c, c] + t + [c, c]) == e + t + e
  {
    var w := t + [c, c];
    assert [c, c] + t + [c, c] == [c, c] + w;
    ScanHeadPair(c, w);
    ScanSkipsPlain(t, [c, c]);
    ScanHeadPair(c, []);
    assert [c, c] + [] == [c, c];
  }

  lemma ScanHeadPair(c: char, rest: string)
    requires IsSpecial(c)
    ensures EscapeScan([c, c] + rest) == ['\\', c, '\\', c] + EscapeScan(rest)
  {
    assert ([c, c] + rest)[2..] == rest;
  }

  /** A list item standing where a cell should be, in a table row met
      outside a table: the item's paragraph sees the item as its parent and
      adds no blank line, so the row is `|v|`. */
  lemma ItemInCellPlace(v: string, st: State)
    requires Plain(v)
    ensures WellFormed(TableRow([Item(v)]))
    ensures Render(TableRow([Item(v)]), st) == "|" + v + "|\n"
  {
    var p := Paragraph([Text(v)]);
    OnlyText(v, st);
    assert WellFormed(p) && WellFormed(Item(v));
    assert AllWellFormed([Item(v)]);
    ParagraphStep(p, true, st);
    assert Exec(p, true, st).out == v + "";
    assert v + "" == v;
    assert [p][1..] == [];
    assert RenderAll([p], true, st) == Exec(p, true, st).out + "";
    TableRowFallback([Item(v)], st);
    var cells := ExecCells([Item(v)], st).cells;
    assert |cells| == 1 && cells[0] == RenderAll([p], true, st);
    assert cells == [v];
    assert Join(cells, "|") == v;
  }
}
