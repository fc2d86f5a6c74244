/** The part of the mdast syntax tree the rewriters read and write. Nodes are
    objects that a visitor updates in place, as unist nodes are: a fixed
    `type`, a child list, a text value and a side-data bag. */
module Mdast {
  import opened Configuration

  /** A node's `type`. `Other` stands for every type neither rewriter looks
      for (emphasis, list, code, heading, ...). */
  datatype Kind = Blockquote | Paragraph | Text | Strong | Other(name: string)

  class Node {
    const kind: Kind
    var children: seq<Node>
    var value: string
    var data: Data

    constructor (kind: Kind, children: seq<Node>, value: string, data: Data)
      ensures this.kind == kind && this.children == children
      ensures this.value == value && this.data == data
    {
      this.kind := kind;
      this.children := children;
      this.value := value;
      this.data := data;
    }
  }

  /** The first child of every node in `nodes` that has one. */
  ghost function FirstChildren(nodes: set<Node>): set<Node>
    reads nodes
  {
    set n | n in nodes && |n.children| > 0 :: n.children[0]
  }

  /** The second child of every node in `nodes` that has one. */
  ghost function SecondChildren(nodes: set<Node>): set<Node>
    reads nodes
  {
    set n | n in nodes && |n.children| > 1 :: n.children[1]
  }

  /** `paragraph` is a title paragraph as the rewriters build it: a paragraph
      with side data `data` holding one text node, without data, showing `title`. */
  ghost predicate IsTitleParagraph(paragraph: Node, title: string, data: Data)
    reads paragraph, paragraph.children
  {
    && paragraph.kind == Paragraph
    && paragraph.data == data
    && |paragraph.children| == 1
    && paragraph.children[0].kind == Text
    && paragraph.children[0].value == title
    && paragraph.children[0].children == []
    && paragraph.children[0].data == map[]
  }
}
