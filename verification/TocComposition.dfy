/** Composing the contents list and the main element: every link of the contents list resolves inside main. */
module TocComposition {
  import opened Basics
  import opened HtmlTree
  import opened HtmlValidator
  import T = TocEntries
  import opened TocTree
  import opened TocForest
  import opened TocMarkup
  import G = TocGeneration
  import Whitespace = Transcript

  const NO_ATTRIBUTES :=
    Attributes(None, None, None, None, None, None, None, None, None, None, None, None, None, None, None, None, None, None)

  function GenericElement(id: string, tag: Tag, attributes: Attributes, classNames: seq<string>, children: seq<Node>): Node {
    Element(Generic, Some(id), tag, attributes, classNames, None, None, children)
  }

  // ---------------------------------------------------------------- links inside the document

  predicate IsAlphanumeric(c: char) {
    'a' <= c <= 'z' || 'A' <= c <= 'Z' || '0' <= c <= '9'
  }

  /** What may follow the # of a link inside the document. */
  predicate SafeTarget(target: string) {
    && 1 <= |target| <= 120 && IsAlphanumeric(target[0])
    && forall i :: 0 < i < |target| ==> IsAlphanumeric(target[i]) || target[i] == '_' || target[i] == '-'
  }

  lemma SafeIs(target: string)
    ensures SafeTarget(target) <==> SafeName(target)
  {
  }

  /** The link as it is written, or nothing when it is refused. The checks for control characters, for a leading // and for
      unsafe schemes come earlier, and refuse nothing that starts with # and goes on with a safe target. */
  function SafeInternalHref(value: string): Option<string> {
    var normalized := Whitespace.TrimEnd(Whitespace.TrimStart(value));
    if normalized != "" && normalized[0] == '#' && SafeTarget(normalized[1..]) then Some(normalized) else None
  }

  /** The target a link ends up with. */
  function LinkTarget(targetId: string): string {
    Whitespace.TrimEnd(targetId)
  }

  lemma {:induction false} TargetCut(targetId: string)
    ensures CutsTo(targetId, LinkTarget(targetId))
    decreases |targetId|
  {
    if targetId != "" {
      Whitespace.SpaceIs(targetId[|targetId| - 1]);
      if Whitespace.IsSpace(targetId[|targetId| - 1]) {
        TargetCut(targetId[..|targetId| - 1]);
      }
    }
  }

  lemma {:induction false} TrimAfterHash(t: string)
    ensures Whitespace.TrimEnd("#" + t) == "#" + Whitespace.TrimEnd(t)
    decreases |t|
  {
    if t != "" {
      TrimAfterHash(t[..|t| - 1]);
      assert ("#" + t)[..|t|] == "#" + t[..|t| - 1];
      assert ("#" + t)[|t|] == t[|t| - 1];
    }
  }

  lemma HrefOfTarget(t: string)
    ensures SafeInternalHref("#" + t) == if SafeTarget(LinkTarget(t)) then Some("#" + LinkTarget(t)) else None
  {
    TrimAfterHash(t);
    assert Whitespace.TrimStart("#" + t) == "#" + t;
    assert ("#" + LinkTarget(t))[1..] == LinkTarget(t);
  }

  // ---------------------------------------------------------------- the contents list

  function ListItem(tree: Tree): Node
    decreases tree, 1
  {
    var link := GenericElement("toc-link-" + tree.entry.id, A,
                               NO_ATTRIBUTES.(href := Some("#" + LinkTarget(tree.entry.targetId))), [], [Text(tree.entry.title)]);
    GenericElement("toc-item-" + tree.entry.id, Li, NO_ATTRIBUTES, ["toc-item"],
                   [link] + ChildList(tree.entry.id, tree.subtrees))
  }

  /** The nested list, or nothing for a leaf. */
  function ChildList(id: string, subtrees: seq<Tree>): seq<Node>
    decreases subtrees, 1
  {
    if subtrees == [] then []
    else [Element(Other, Some("toc-children-" + id), Ol, NO_ATTRIBUTES, ["toc-list"], None, None, ListItems(subtrees))]
  }

  function ListItems(forest: seq<Tree>): seq<Node>
    decreases forest, 0
  {
    if forest == [] then [] else [ListItem(forest[0])] + ListItems(forest[1..])
  }

  /** No link of the tree is refused. */
  predicate Linkable(tree: Tree)
    decreases tree, 1
  {
    SafeTarget(LinkTarget(tree.entry.targetId)) && AllLinkable(tree.subtrees)
  }

  predicate AllLinkable(forest: seq<Tree>)
    decreases forest, 0
  {
    forest == [] || (Linkable(forest[0]) && AllLinkable(forest[1..]))
  }

  predicate AllSafe(bag: multiset<T.Entry>) {
    forall e | e in bag :: SafeTarget(LinkTarget(e.targetId))
  }

  lemma {:induction false} LinkableIff(forest: seq<Tree>)
    ensures AllLinkable(forest) <==> AllSafe(Bag(forest))
    decreases forest
  {
    if forest != [] {
      LinkableIff(forest[0].subtrees);
      LinkableIff(forest[1..]);
      assert forest[0].entry in Bag(forest);
    }
  }

  lemma CutOnce(text: string, a: string, b: string)
    requires CutsTo(text, a) && CutsTo(text, b)
    ensures a == b
  {
    CutHere(text, a, |a| - 1);
    CutHere(text, b, |a| - 1);
    CutHere(text, a, |b| - 1);
    CutHere(text, b, |b| - 1);
    assert a == text[..|a|] && b == text[..|b|];
  }

  lemma CutHere(text: string, cut: string, i: int)
    requires CutsTo(text, cut)
    ensures |cut| <= |text| && (i == |cut| - 1 && i >= 0 ==> text[i] !in Whitespace.WHITE_SPACE)
    ensures |cut| <= i < |text| ==> text[i] in Whitespace.WHITE_SPACE
  {
  }

  lemma ReachableIff(e: T.Entry)
    ensures SafeTarget(LinkTarget(e.targetId)) <==> Reachable(e)
  {
    hide CutsTo;
    TargetCut(e.targetId);
    SafeIs(LinkTarget(e.targetId));
    if Reachable(e) {
      var target :| CutsTo(e.targetId, target) && SafeName(target);
      CutOnce(e.targetId, target, LinkTarget(e.targetId));
    }
  }

  lemma SafeTree(tree: Tree)
    ensures Linkable(tree) <==> forall e :: e in Bag([tree]) ==> Reachable(e)
  {
    hide Reachable;
    LinkableIff([tree]);
    assert [tree][1..] == [] && AllLinkable([]);
    forall e | e in Bag([tree]) ensures SafeTarget(LinkTarget(e.targetId)) <==> Reachable(e) {
      ReachableIff(e);
    }
  }

  lemma LinkIs(e: T.Entry)
    ensures IsLink(e, GenericElement("toc-link-" + e.id, A, NO_ATTRIBUTES.(href := Some("#" + LinkTarget(e.targetId))), [],
                                     [Text(e.title)]))
  {
    TargetCut(e.targetId);
  }

  lemma {:induction false} ItemIs(tree: Tree)
    ensures IsItem(tree, ListItem(tree))
    decreases tree, 1
  {
    hide IsLink;
    LinkIs(tree.entry);
    if tree.subtrees != [] {
      ItemsAre(tree.subtrees);
    }
  }

  lemma {:induction false} ItemsAre(forest: seq<Tree>)
    ensures AreItems(forest, ListItems(forest))
    decreases forest, 0
  {
    hide IsItem;
    if forest != [] {
      ItemIs(forest[0]);
      ItemsAre(forest[1..]);
      assert ListItems(forest)[1..] == ListItems(forest[1..]);
    }
  }

  /** Recursion over the shared nodes; it ends because they show a forest. A refused link refuses the whole list. */
  method TocNodeToListItem(node: TocTreeNode, ghost heap: set<TocTreeNode>, ghost tree: Tree) returns (item: Option<Node>)
    requires node in heap && node.entry == tree.entry && Shows(heap, node.children, tree.subtrees)
    ensures item == if Linkable(tree) then Some(ListItem(tree)) else None
    ensures item.Some? ==> IsItem(tree, item.value)
    ensures item.Some? <==> forall e :: e in Bag([tree]) ==> Reachable(e)
    decreases tree, 1
  {
    ItemIs(tree);
    SafeTree(tree);
    var href := SafeInternalHref("#" + node.entry.targetId);
    HrefOfTarget(node.entry.targetId);
    if href == None {
      return None;
    }
    var link := GenericElement("toc-link-" + node.entry.id, A, NO_ATTRIBUTES.(href := href), [], [Text(node.entry.title)]);
    var children := [link];
    if |node.children| > 0 {
      var items := TocNodesToListItems(node.children, heap, tree.subtrees);
      if items == None {
        return None;
      }
      children := children +
        [Element(Other, Some("toc-children-" + node.entry.id), Ol, NO_ATTRIBUTES, ["toc-list"], None, None, items.value)];
    }
    item := Some(GenericElement("toc-item-" + node.entry.id, Li, NO_ATTRIBUTES, ["toc-item"], children));
    assert tree.subtrees == [] ==> [link] + [] == [link];
  }

  method TocNodesToListItems(nodes: seq<TocTreeNode>, ghost heap: set<TocTreeNode>, ghost forest: seq<Tree>)
    returns (items: Option<seq<Node>>)
    requires Shows(heap, nodes, forest)
    ensures items == if AllLinkable(forest) then Some(ListItems(forest)) else None
    decreases forest, 0
  {
    if nodes == [] {
      return Some([]);
    }
    var first := TocNodeToListItem(nodes[0], heap, forest[0]);
    var rest := TocNodesToListItems(nodes[1..], heap, forest[1..]);
    items := if first.Some? && rest.Some? then Some([first.value] + rest.value) else None;
  }

  // ---------------------------------------------------------------- the main element

  function HeadingTag(level: int): Tag {
    if level <= 2 then H3 else H4
  }

  /** A heading becomes an element with the block's id. */
  function ComposeBlock(block: G.Block, other: BlockComposer): Option<seq<Node>> {
    if block.HeadingBlock? then
      Some([Element(Heading(if block.level <= 2 then 3 else 4), Some(block.id), HeadingTag(block.level), NO_ATTRIBUTES,
                    ["section-title"], None, None, [Text(block.text)])])
    else other(block)
  }

  /** The block is composed, and to at least one node. */
  predicate Composes(block: G.Block, other: BlockComposer) {
    block.HeadingBlock? || (other(block).Some? && other(block).value != [])
  }

  predicate AllCompose(blocks: seq<G.Block>, other: BlockComposer) {
    forall i :: 0 <= i < |blocks| ==> Composes(blocks[i], other)
  }

  predicate SectionsCompose(sections: seq<G.Section>, other: BlockComposer) {
    forall i :: 0 <= i < |sections| && !G.Reserved(sections[i].id) ==> AllCompose(sections[i].blocks, other)
  }

  /** The nodes of the blocks that are composed. */
  function BlockNodes(blocks: seq<G.Block>, other: BlockComposer): seq<Node> {
    if blocks == [] then []
    else
      var last := ComposeBlock(blocks[|blocks| - 1], other);
      BlockNodes(blocks[..|blocks| - 1], other) + if last.Some? then last.value else []
  }

  function SectionTitle(section: G.Section): Node {
    Element(Heading(2), Some(section.id + "-title"), H2, NO_ATTRIBUTES, ["section-title"], None, None, [Text(section.title)])
  }

  function SectionNode(section: G.Section, other: BlockComposer): Node {
    GenericElement(section.id, Section, NO_ATTRIBUTES, ["section"], [SectionTitle(section)] + BlockNodes(section.blocks, other))
  }

  function SectionNodes(sections: seq<G.Section>, other: BlockComposer): seq<Node> {
    if sections == [] then []
    else
      var last := sections[|sections| - 1];
      SectionNodes(sections[..|sections| - 1], other) + if G.Reserved(last.id) then [] else [SectionNode(last, other)]
  }

  function MainNode(sections: seq<G.Section>, other: BlockComposer): Node {
    GenericElement("main-content", Main, NO_ATTRIBUTES, ["document-main"], SectionNodes(sections, other))
  }

  lemma BlockIs(block: G.Block, other: BlockComposer)
    requires Composes(block, other)
    ensures ComposeBlock(block, other).Some? && IsBlock(block, other, ComposeBlock(block, other).value)
  {
  }

  lemma {:induction false} BlocksAre(blocks: seq<G.Block>, other: BlockComposer)
    requires AllCompose(blocks, other)
    ensures AreBlocks(blocks, other, BlockNodes(blocks, other))
    decreases |blocks|
  {
    hide Composes, IsBlock, ComposeBlock;
    if blocks != [] {
      var init, last := blocks[..|blocks| - 1], blocks[|blocks| - 1];
      forall i | 0 <= i < |init| ensures Composes(init[i], other) {
        assert init[i] == blocks[i];
      }
      BlocksAre(init, other);
      BlockIs(last, other);
      var ns, k := BlockNodes(blocks, other), |BlockNodes(init, other)|;
      assert ns[..k] == BlockNodes(init, other) && ns[k..] == ComposeBlock(last, other).value;
    }
  }

  lemma SectionIs(section: G.Section, other: BlockComposer)
    requires AllCompose(section.blocks, other)
    ensures IsSection(section, other, SectionNode(section, other))
  {
    BlocksAre(section.blocks, other);
    var children := [SectionTitle(section)] + BlockNodes(section.blocks, other);
    assert children[1..] == BlockNodes(section.blocks, other);
  }

  lemma {:induction false} SectionsAre(sections: seq<G.Section>, other: BlockComposer)
    requires SectionsCompose(sections, other)
    ensures AreSections(sections, other, SectionNodes(sections, other))
    decreases |sections|
  {
    hide IsSection, AllCompose, SectionNode;
    if sections != [] {
      var init, last := sections[..|sections| - 1], sections[|sections| - 1];
      forall i | 0 <= i < |init| && !G.Reserved(init[i].id) ensures AllCompose(init[i].blocks, other) {
        assert init[i] == sections[i];
      }
      SectionsAre(init, other);
      var ns := SectionNodes(init, other);
      if G.Reserved(last.id) {
        assert SectionNodes(sections, other) == ns + [] == ns;
      } else {
        SectionIs(last, other);
        assert (ns + [SectionNode(last, other)])[..|ns|] == ns;
      }
    }
  }

  lemma MainIs(sections: seq<G.Section>, other: BlockComposer)
    requires SectionsCompose(sections, other)
    ensures IsMain(sections, other, MainNode(sections, other))
  {
    SectionsAre(sections, other);
  }

  lemma AllComposeIs(blocks: seq<G.Block>, other: BlockComposer)
    ensures AllCompose(blocks, other) <==>
      forall i :: 0 <= i < |blocks| ==> blocks[i].HeadingBlock? || other(blocks[i]) !in {None, Some([])}
  {
  }

  lemma NoBlocks(other: BlockComposer)
    ensures AllCompose([], other) && BlockNodes([], other) == []
  {
  }

  lemma OneMoreBlock(blocks: seq<G.Block>, k: nat, other: BlockComposer)
    requires k < |blocks|
    ensures var mapped := ComposeBlock(blocks[k], other);
            if mapped in {None, Some([])} then !AllCompose(blocks, other)
            else
              && (AllCompose(blocks[..k], other) ==> AllCompose(blocks[..k + 1], other))
              && BlockNodes(blocks[..k + 1], other) == BlockNodes(blocks[..k], other) + mapped.value
  {
    assert blocks[..k + 1][..k] == blocks[..k];
    if ComposeBlock(blocks[k], other) in {None, Some([])} {
      assert !Composes(blocks[k], other);
    }
  }

  /** A block that fails, or that gives no node, fails its section. */
  method ComposeBodySection(section: G.Section, other: BlockComposer) returns (composed: Option<Node>)
    ensures composed == if AllCompose(section.blocks, other) then Some(SectionNode(section, other)) else None
    ensures composed.Some? <==>
      forall i :: 0 <= i < |section.blocks| ==> section.blocks[i].HeadingBlock? || other(section.blocks[i]) !in {None, Some([])}
    ensures composed.Some? ==> IsSection(section, other, composed.value)
  {
    hide IsSection, AllCompose, BlockNodes;
    var blocks := section.blocks;
    AllComposeIs(blocks, other);
    if AllCompose(blocks, other) {
      SectionIs(section, other);
    }
    NoBlocks(other);
    var children := [SectionTitle(section)];
    for k := 0 to |blocks|
      invariant AllCompose(blocks[..k], other)
      invariant children == [SectionTitle(section)] + BlockNodes(blocks[..k], other)
    {
      OneMoreBlock(blocks, k, other);
      var mapped := ComposeBlock(blocks[k], other);
      if mapped == None || |mapped.value| == 0 {
        return None;
      }
      children := children + mapped.value;
    }
    assert blocks[..|blocks|] == blocks;
    composed := Some(GenericElement(section.id, Section, NO_ATTRIBUTES, ["section"], children));
  }

  method ComposeMain(sections: seq<G.Section>, other: BlockComposer) returns (main: Option<Node>)
    ensures main == if SectionsCompose(sections, other) then Some(MainNode(sections, other)) else None
  {
    var children := ComposeSections(sections, other);
    main := if children.Some? then Some(GenericElement("main-content", Main, NO_ATTRIBUTES, ["document-main"], children.value)) else None;
  }

  lemma SectionsComposeMore(init: seq<G.Section>, last: G.Section, other: BlockComposer)
    ensures SectionsCompose(init + [last], other) <==>
            SectionsCompose(init, other) && (!G.Reserved(last.id) ==> AllCompose(last.blocks, other))
  {
    var all := init + [last];
    assert all[|init|] == last && forall i :: 0 <= i < |init| ==> init[i] == all[i];
  }

  method ComposeSections(sections: seq<G.Section>, other: BlockComposer) returns (composed: Option<seq<Node>>)
    ensures composed == if SectionsCompose(sections, other) then Some(SectionNodes(sections, other)) else None
    decreases |sections|
  {
    if sections == [] {
      return Some([]);
    }
    var init, last := sections[..|sections| - 1], sections[|sections| - 1];
    SectionsComposeMore(init, last, other);
    assert sections == init + [last];
    assert SectionNodes(init, other) + [] == SectionNodes(init, other);
    composed := ComposeSections(init, other);
    if composed.Some? && !G.Reserved(last.id) {
      var section := ComposeBodySection(last, other);
      composed := if section.Some? then Some(composed.value + [section.value]) else None;
    }
  }

  // ---------------------------------------------------------------- every link resolves

  /** The ids of the elements in a forest. */
  function Ids(ns: seq<Node>): set<string>
    decreases ns, 1
  {
    if ns == [] then {} else IdsOf(ns[0]) + Ids(ns[1..])
  }

  function IdsOf(n: Node): set<string>
    decreases n, 0
  {
    match n
    case Text(_) => {}
    case Element(_, id, _, _, _, _, _, children) => (if id.Some? then {id.value} else {}) + Ids(children)
  }

  /** The fragments linked to in a forest. */
  function Links(ns: seq<Node>): set<string>
    decreases ns, 1
  {
    if ns == [] then {} else LinksOf(ns[0]) + Links(ns[1..])
  }

  function LinksOf(n: Node): set<string>
    decreases n, 0
  {
    match n
    case Text(_) => {}
    case Element(_, _, tag, attributes, _, _, _, children) =>
      (if tag.A? && attributes.href.Some? && IsInternal(attributes.href.value) then {attributes.href.value[1..]} else {}) +
      Links(children)
  }

  lemma {:induction false} IdsAppend(a: seq<Node>, b: seq<Node>)
    ensures Ids(a + b) == Ids(a) + Ids(b)
  {
    if a == [] {
      assert a + b == b;
    } else {
      IdsAppend(a[1..], b);
      assert (a + b)[1..] == a[1..] + b;
    }
  }

  function Targets(bag: multiset<T.Entry>): set<string> {
    set e | e in bag :: LinkTarget(e.targetId)
  }

  /** The contents list links to the targets of exactly the entries in the forest. */
  lemma {:induction false} ListLinks(forest: seq<Tree>)
    ensures Links(ListItems(forest)) == Targets(Bag(forest))
    decreases forest
  {
    if forest != [] {
      var t := forest[0];
      ListLinks(t.subtrees);
      ListLinks(forest[1..]);
      ItemLinks(t);
      assert ListItems(forest)[1..] == ListItems(forest[1..]);
      TargetsJoin(t.entry, Bag(t.subtrees), Bag(forest[1..]));
    }
  }

  lemma TargetsJoin(e: T.Entry, a: multiset<T.Entry>, b: multiset<T.Entry>)
    ensures Targets(multiset{e} + a + b) == {LinkTarget(e.targetId)} + Targets(a) + Targets(b)
  {
  }

  lemma ItemLinks(t: Tree)
    ensures LinksOf(ListItem(t)) == {LinkTarget(t.entry.targetId)} + Links(ListItems(t.subtrees))
  {
    var link := ListItem(t).children[0];
    var nested := ChildList(t.entry.id, t.subtrees);
    assert ("#" + LinkTarget(t.entry.targetId))[1..] == LinkTarget(t.entry.targetId);
    assert LinksOf(link) == {LinkTarget(t.entry.targetId)} + Links([Text(t.entry.title)]);
    assert ([link] + nested)[1..] == nested;
    assert Links([Text(t.entry.title)]) == {};
    if t.subtrees != [] {
      assert Links(nested) == LinksOf(nested[0]) + Links(nested[1..]);
      assert nested[1..] == [];
    }
  }

  lemma {:induction false} HeadingComposed(blocks: seq<G.Block>, other: BlockComposer, item: G.Item)
    requires item in G.Headings(blocks)
    ensures item.targetId in Ids(BlockNodes(blocks, other))
    decreases |blocks|
  {
    var init, last := blocks[..|blocks| - 1], blocks[|blocks| - 1];
    var nodes := ComposeBlock(last, other);
    IdsAppend(BlockNodes(init, other), if nodes.Some? then nodes.value else []);
    if item in G.Headings(init) {
      HeadingComposed(init, other, item);
    } else {
      assert nodes.value[0].id == Some(item.targetId);
    }
  }

  lemma SectionIds(section: G.Section, other: BlockComposer)
    ensures IdsOf(SectionNode(section, other)) >= {section.id} + Ids(BlockNodes(section.blocks, other))
  {
    IdsAppend([SectionTitle(section)], BlockNodes(section.blocks, other));
  }

  /** Everything the outline points at is an element of main. */
  lemma {:induction false} OutlineComposed(sections: seq<G.Section>, other: BlockComposer, item: G.Item)
    requires item in G.Outline(sections)
    ensures item.targetId in Ids(SectionNodes(sections, other))
    decreases |sections|
  {
    var init, last := sections[..|sections| - 1], sections[|sections| - 1];
    IdsAppend(SectionNodes(init, other), if G.Reserved(last.id) then [] else [SectionNode(last, other)]);
    if item in G.Outline(init) {
      OutlineComposed(init, other, item);
    } else {
      SectionIds(last, other);
      OneSection(SectionNode(last, other));
      if item in G.Headings(last.blocks) {
        HeadingComposed(last.blocks, other, item);
      }
    }
  }

  lemma OneSection(n: Node)
    ensures Ids([n]) == IdsOf(n)
  {
    assert [n][1..] == [];
  }

  // ---------------------------------------------------------------- from sections to the document

  /** The targets that the kept lines of an outline link to. */
  function KeptTargets(items: seq<G.Item>): set<string> {
    set i | 0 <= i < |items| && !G.Reserved(items[i].targetId) :: LinkTarget(items[i].targetId)
  }

  predicate TargetsSafe(items: seq<G.Item>) {
    forall i :: 0 <= i < |items| && !G.Reserved(items[i].targetId) ==> SafeTarget(LinkTarget(items[i].targetId))
  }

  /** No white space after an id, as in a publication that has been parsed. */
  predicate IdsTrimmed(items: seq<G.Item>) {
    forall i :: 0 <= i < |items| ==> LinkTarget(items[i].targetId) == items[i].targetId
  }

  /** The kept entries have the targets of the kept lines. */
  lemma KeptEntry(entries: seq<T.Entry>, outline: seq<G.Item>, e: T.Entry) returns (i: nat)
    requires G.FollowsOutline(entries, outline) && e in T.Filtered(entries)
    ensures i < |outline| && !G.Reserved(outline[i].targetId) && outline[i].targetId == e.targetId
  {
    G.FilteredHas(entries);
    i :| 0 <= i < |entries| && entries[i] == e;
    assert G.Placed(entries, outline, i);
  }

  lemma KeptLine(entries: seq<T.Entry>, outline: seq<G.Item>, i: nat) returns (e: T.Entry)
    requires G.FollowsOutline(entries, outline) && i < |outline| && !G.Reserved(outline[i].targetId)
    ensures e in T.Filtered(entries) && outline[i].targetId == e.targetId
  {
    G.FilteredHas(entries);
    assert G.Placed(entries, outline, i);
    e := entries[i];
  }

  lemma SameTargets(entries: seq<T.Entry>, outline: seq<G.Item>)
    requires G.FollowsOutline(entries, outline)
    ensures Targets(multiset(T.Filtered(entries))) == KeptTargets(outline)
  {
    var kept := multiset(T.Filtered(entries));
    forall t | t in KeptTargets(outline) ensures t in Targets(kept) {
      var i :| 0 <= i < |outline| && !G.Reserved(outline[i].targetId) && LinkTarget(outline[i].targetId) == t;
      var e := KeptLine(entries, outline, i);
      assert e in kept;
    }
    forall t | t in Targets(kept) ensures t in KeptTargets(outline) {
      var e :| e in kept && LinkTarget(e.targetId) == t;
      var i := KeptEntry(entries, outline, e);
    }
  }

  lemma SameSafety(entries: seq<T.Entry>, outline: seq<G.Item>)
    requires G.FollowsOutline(entries, outline)
    ensures AllSafe(multiset(T.Filtered(entries))) <==> TargetsSafe(outline)
  {
    var kept := multiset(T.Filtered(entries));
    if AllSafe(kept) {
      forall i | 0 <= i < |outline| && !G.Reserved(outline[i].targetId) ensures SafeTarget(LinkTarget(outline[i].targetId)) {
        var e := KeptLine(entries, outline, i);
        assert e in kept;
      }
    }
    if TargetsSafe(outline) {
      forall e | e in kept ensures SafeTarget(LinkTarget(e.targetId)) {
        var i := KeptEntry(entries, outline, e);
      }
    }
  }

  datatype Composed = Composed(items: seq<Node>, main: Node)

  /** The list shows a forest of the kept entries, each once and below its parent, of a list of entries that follows the outline. */
  ghost predicate ListsOutline(sections: seq<G.Section>, items: seq<Node>) {
    exists entries, forest ::
      && G.FollowsOutline(entries, G.Outline(sections)) && WellPlaced(T.Filtered(entries), None, forest)
      && Bag(forest) == multiset(T.Filtered(entries)) && AreItems(forest, items)
  }

  /** Generate, validate, build, compose. It fails exactly when two kept lines of the outline have one target, a kept heading
      hangs below a reserved name, a target is no safe name, or a block cannot be composed; else the contents list links to
      exactly the kept targets, and every link lands on an element of main. */
  method ComposeGeneratedToc(sections: seq<G.Section>, other: BlockComposer) returns (document: Option<Composed>)
    ensures document.Some? <==>
            && G.DistinctTargets(G.Outline(sections)) && G.SectionsKeepParents(sections)
            && TargetsSafe(G.Outline(sections)) && SectionsCompose(sections, other)
    ensures document.Some? ==> ListsOutline(sections, document.value.items) && IsMain(sections, other, document.value.main)
    ensures document.Some? ==> Links(document.value.items) == KeptTargets(G.Outline(sections))
    ensures document.Some? && IdsTrimmed(G.Outline(sections)) ==> Links(document.value.items) <= IdsOf(document.value.main)
  {
    var entries := G.CreateTocEntriesForSections(sections);
    G.GeneratedAcceptedIff(sections, entries);
    SameTargets(entries, G.Outline(sections));
    SameSafety(entries, G.Outline(sections));
    var checked, roots;
    ghost var heap, forest;
    checked, roots, heap, forest := ComposeToc(entries);
    if !checked.Accepted? {
      return None;
    }
    LinkableIff(forest);
    ListLinks(forest);
    var items := TocNodesToListItems(roots, heap, forest);
    if items == None {
      return None;
    }
    var main := ComposeMain(sections, other);
    if main == None {
      return None;
    }
    if IdsTrimmed(G.Outline(sections)) {
      KeptInMain(sections, other);
    }
    ItemsAre(forest);
    MainIs(sections, other);
    document := Some(Composed(items.value, main.value));
  }

  lemma KeptInMain(sections: seq<G.Section>, other: BlockComposer)
    requires IdsTrimmed(G.Outline(sections))
    ensures KeptTargets(G.Outline(sections)) <= IdsOf(MainNode(sections, other))
  {
    var outline := G.Outline(sections);
    forall i | 0 <= i < |outline| && !G.Reserved(outline[i].targetId) ensures outline[i].targetId in IdsOf(MainNode(sections, other)) {
      OutlineComposed(sections, other, outline[i]);
    }
  }
}
