/** What a contents list and a main element show of the entries and sections they were composed from, node by node. */
module TocMarkup {
  import opened Basics
  import opened HtmlTree
  import opened TocEntries
  import opened TocForest
  import opened Transcript
  import G = TocGeneration

  /** How blocks other than headings are composed: to nodes, or to an error. */
  type BlockComposer = G.Block -> Option<seq<Node>>

  predicate LetterOrDigit(c: char) {
    'A' <= c <= 'Z' || 'a' <= c <= 'z' || '0' <= c <= '9'
  }

  /** A letter or digit, and then letters, digits, underscores and hyphens, up to 120 in all. */
  predicate SafeName(name: string) {
    && 1 <= |name| <= 120 && LetterOrDigit(name[0])
    && forall i :: 0 <= i < |name| ==> LetterOrDigit(name[i]) || name[i] in {'_', '-'}
  }

  /** The text without the white space at its end. */
  ghost predicate CutsTo(text: string, cut: string) {
    && cut <= text && (forall i :: |cut| <= i < |text| ==> text[i] in WHITE_SPACE)
    && (cut != "" ==> cut[|cut| - 1] !in WHITE_SPACE)
  }

  /** The entry can be linked to. */
  ghost predicate Reachable(e: Entry) {
    exists target :: CutsTo(e.targetId, target) && SafeName(target)
  }

  predicate NothingSet(a: Attributes) {
    && a.href == a.src == a.alt == a.title == a.target == a.rel == a.ariaDescribedBy == a.ariaLabelledBy == a.scope == None
    && a.colspan == a.rowspan == a.loading == a.decoding == a.referrerpolicy == a.publicationBlock == None
    && a.referenceId == a.citationId == a.footnoteId == None
  }

  predicate IsElement(n: Node, kind: Kind, id: string, tag: Tag, classNames: seq<string>) {
    && n.Element? && n.kind == kind && n.id == Some(id) && n.tag == tag && n.classNames == classNames
    && n.ariaLabel == None && n.role == None
  }

  // ---------------------------------------------------------------- the contents list

  /** A link with the title as its text, to the target without the white space at its end. */
  ghost predicate IsLink(e: Entry, n: Node) {
    && IsElement(n, Generic, "toc-link-" + e.id, A, []) && n.children == [Text(e.title)]
    && (exists target :: CutsTo(e.targetId, target) && n.attributes.href == Some("#" + target))
    && NothingSet(n.attributes.(href := None))
  }

  /** An item holds the link of its entry, and the list of what hangs below it if anything does. */
  ghost predicate IsItem(tree: Tree, n: Node)
    decreases tree, 1
  {
    && IsElement(n, Generic, "toc-item-" + tree.entry.id, Li, ["toc-item"]) && NothingSet(n.attributes)
    && n.children != [] && IsLink(tree.entry, n.children[0])
    && if tree.subtrees == [] then |n.children| == 1
       else
         && |n.children| == 2 && IsElement(n.children[1], Other, "toc-children-" + tree.entry.id, Ol, ["toc-list"])
         && NothingSet(n.children[1].attributes) && AreItems(tree.subtrees, n.children[1].children)
  }

  ghost predicate AreItems(forest: seq<Tree>, ns: seq<Node>)
    decreases forest, 0
  {
    && |ns| == |forest|
    && (forest != [] ==> IsItem(forest[0], ns[0]) && AreItems(forest[1..], ns[1..]))
  }

  // ---------------------------------------------------------------- main

  predicate IsHeading(n: Node, id: string, level: int, text: string) {
    && IsElement(n, Heading(level), id, if level == 2 then H2 else if level == 3 then H3 else H4, ["section-title"])
    && NothingSet(n.attributes) && n.children == [Text(text)]
  }

  /** A heading becomes one of the third or fourth level; another block what its composer makes of it, which is not nothing. */
  predicate IsBlock(block: G.Block, other: BlockComposer, ns: seq<Node>) {
    if block.HeadingBlock? then |ns| == 1 && IsHeading(ns[0], block.id, if block.level <= 2 then 3 else 4, block.text)
    else other(block) == Some(ns) && ns != []
  }

  ghost predicate AreBlocks(blocks: seq<G.Block>, other: BlockComposer, ns: seq<Node>)
    decreases |blocks|
  {
    if blocks == [] then ns == []
    else exists k :: 0 <= k <= |ns| && AreBlocks(blocks[..|blocks| - 1], other, ns[..k]) && IsBlock(blocks[|blocks| - 1], other, ns[k..])
  }

  /** A section shows its title and then its blocks. */
  ghost predicate IsSection(section: G.Section, other: BlockComposer, n: Node) {
    && IsElement(n, Generic, section.id, Section, ["section"]) && NothingSet(n.attributes)
    && n.children != [] && IsHeading(n.children[0], section.id + "-title", 2, section.title)
    && AreBlocks(section.blocks, other, n.children[1..])
  }

  /** The sections in order, but for a cover and a table of contents. */
  ghost predicate AreSections(sections: seq<G.Section>, other: BlockComposer, ns: seq<Node>)
    decreases |sections|
  {
    if sections == [] then ns == []
    else
      var last := sections[|sections| - 1];
      if last.id in {"cover", "table-of-contents"} then AreSections(sections[..|sections| - 1], other, ns)
      else ns != [] && AreSections(sections[..|sections| - 1], other, ns[..|ns| - 1]) && IsSection(last, other, ns[|ns| - 1])
  }

  ghost predicate IsMain(sections: seq<G.Section>, other: BlockComposer, n: Node) {
    && IsElement(n, Generic, "main-content", Main, ["document-main"]) && NothingSet(n.attributes)
    && AreSections(sections, other, n.children)
  }
}
