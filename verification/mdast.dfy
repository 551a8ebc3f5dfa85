/**
  The Markdown syntax tree the converter walks: one constructor per node
  type it distinguishes, plus `Other` for every other type that carries
  children and `OtherLeaf` for every other type that does not.
 */
module Mdast {

  datatype Option<T> = None | Some(value: T)

  datatype Node =
    | Root(children: seq<Node>)
    | Heading(depth: nat, children: seq<Node>)
    | Paragraph(children: seq<Node>)
    | Text(value: string)
    | Strong(children: seq<Node>)
    | Emphasis(children: seq<Node>)
    | Delete(children: seq<Node>)
    | InlineCode(value: string)
    | Code(lang: Option<string>, value: string)
    | Link(url: string, children: seq<Node>)
    | Image(url: string, alt: string)
    | List(ordered: bool, children: seq<Node>)
    | ListItem(children: seq<Node>)
    | Blockquote(children: seq<Node>)
    | Table(children: seq<Node>)
    | TableRow(children: seq<Node>)
    | TableCell(children: seq<Node>)
    | Break
    | ThematicBreak
    | Other(children: seq<Node>)
    | OtherLeaf

  /** Whether the node carries a `children` array. */
  predicate IsParent(n: Node) {
    !(n.Text? || n.InlineCode? || n.Code? || n.Image? || n.Break? || n.ThematicBreak? || n.OtherLeaf?)
  }

  /** The trees the converter can walk without a runtime error: every row of
      a table has children, since the table renderer maps over
      `row.children` without checking that it exists. */
  predicate WellFormed(n: Node)
    decreases n
  {
    && (n.Table? ==> forall i :: 0 <= i < |n.children| ==> IsParent(n.children[i]))
    && (IsParent(n) ==> forall i :: 0 <= i < |n.children| ==> WellFormed(n.children[i]))
  }

  predicate AllWellFormed(cs: seq<Node>) {
    forall i :: 0 <= i < |cs| ==> WellFormed(cs[i])
  }
}
