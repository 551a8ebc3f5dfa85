/**
  Lists and list items: the nesting state a list pushes and pops, the
  extra line feed after a top-level list, and the shape of an item's
  line(s).
 */
module Lists {
  import opened Strings
  import opened Mdast
  import opened Converter
  import opened Rendering

  /** What one child of a list item adds to the item's content, rendered
      from the item's field values. */
  function ChildContent(child: Node, st: State): string
    requires WellFormed(child)
  {
    if child.Paragraph? then RenderAll(child.children, false, st)
    else if child.List? then "\n" + Exec(child, true, st).out
    else Exec(child, true, st).out
  }

  /** Reference: a list item's content, every child contributing from the
      same field values. */
  function ItemContent(cs: seq<Node>, st: State): string
    requires AllWellFormed(cs)
    decreases |cs|
  {
    if |cs| == 0 then "" else ChildContent(cs[0], st) + ItemContent(cs[1..], st)
  }

  predicate HasNestedList(cs: seq<Node>) {
    exists i :: 0 <= i < |cs| && cs[i].List?
  }

  /** The loop of `processListItem` accumulates exactly `ItemContent`. */
  lemma {:induction false} ItemLoopIsContent(cs: seq<Node>, st: State)
    requires AllWellFormed(cs)
    ensures ExecItem(cs, st).content == ItemContent(cs, st)
    ensures ExecItem(cs, st).nested == HasNestedList(cs)
    decreases |cs|
  {
    if |cs| > 0 {
      ItemLoopIsContent(cs[1..], st);
      if cs[0].Paragraph? {
        KidsIsConcat(cs[0], st);
      }
    }
  }

  /** A list renders its children from the state with its own depth and
      flag pushed, adds one line feed when it is not nested in another list
      (entry depth not positive) and nothing when it is, and hands the depth
      and flag stack back as it found them. */
  lemma {:induction false} ListShape(ordered: bool, cs: seq<Node>, underItem: bool, st: State)
    requires AllWellFormed(cs)
    ensures var r := Exec(List(ordered, cs), underItem, st);
      && r.out == RenderAll(cs, false, Enter(st, ordered)) + (if st.depth > 0 then "" else "\n")
      && r.st == st
    ensures Consistent(st) ==> Consistent(Enter(st, ordered))
  {
    assert WellFormed(List(ordered, cs));
    assert Exec(List(ordered, cs), underItem, st) == ProcessList(List(ordered, cs), st);
    SeqIsConcat(cs, false, Enter(st, ordered));
  }

  /** A list item: the bullet (`+` when the innermost open list is ordered,
      `-` otherwise) repeated once per open list, a space, the trimmed
      content, and a line feed unless the item holds a nested list and its
      content spans several lines. */
  lemma {:induction false} ItemShape(cs: seq<Node>, underItem: bool, st: State)
    requires AllWellFormed(cs)
    ensures var content := Trim(ItemContent(cs, st));
      Exec(ListItem(cs), underItem, st).out
        == Repeat(Bullet(st), st.depth) + " " + content
           + (if HasNestedList(cs) && '\n' in content then "" else "\n")
  {
    assert WellFormed(ListItem(cs));
    ItemDispatch(ListItem(cs), underItem, st);
    ItemLoopIsContent(cs, st);
  }

  lemma ItemDispatch(n: Node, underItem: bool, st: State)
    requires n.ListItem? && WellFormed(n)
    ensures var p := ExecItem(n.children, st);
      Exec(n, underItem, st).out == ItemMarkup(Repeat(Bullet(st), st.depth), Trim(p.content), p.nested)
  {
    assert Exec(n, underItem, st) == ProcessListItem(n, st);
  }

  /** An item whose children hold no list ends with a line feed; one with a
      nested list below its own text does not, so whatever follows it starts
      on the nested list's last line. */
  lemma ItemLineEnding(cs: seq<Node>, st: State)
    requires AllWellFormed(cs)
    ensures var r := Render(ListItem(cs), st);
      |r| > 0 && (r[|r| - 1] == '\n' <==> !(HasNestedList(cs) && '\n' in Trim(ItemContent(cs, st))))
  {
    ItemShape(cs, false, st);
    var content := Trim(ItemContent(cs, st));
    if |content| > 0 {
      assert !IsSpace(content[|content| - 1]);
    }
  }

  /** An item directly inside a list has one bullet per open list, and the
      bullet says whether that list is ordered. */
  lemma ItemInList(ordered: bool, cs: seq<Node>, st: State)
    requires AllWellFormed(cs)
    requires st.depth >= 0
    ensures var prefix := Repeat(Bullet(Enter(st, ordered)), Enter(st, ordered).depth);
      && |prefix| == st.depth + 1
      && forall i :: 0 <= i < |prefix| ==> prefix[i] == (if ordered then '+' else '-')
  {
  }
}
