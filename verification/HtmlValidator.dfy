/** The schema's breadth-first traversal, proved equal to a predicate defined by recursion over the tree. */
module HtmlValidator {
  import opened Basics
  import opened HtmlTree

  const MAX_TOTAL_ELEMENTS := 2400
  const MAX_TREE_DEPTH := 16
  const MAX_CHILDREN := 180

  /** An element with its nesting depth and the tag of its parent. */
  datatype Item = Item(node: Node, depth: nat, parent: Option<Tag>)

  function ItemsOf(nodes: seq<Node>, depth: nat, parent: Option<Tag>): seq<Item> {
    if nodes == [] then []
    else (if nodes[0].Element? then [Item(nodes[0], depth, parent)] else []) + ItemsOf(nodes[1..], depth, parent)
  }

  predicate AllElements(items: seq<Item>) {
    forall i :: 0 <= i < |items| ==> items[i].node.Element?
  }

  lemma {:induction false} ItemsAreElements(nodes: seq<Node>, depth: nat, parent: Option<Tag>)
    ensures AllElements(ItemsOf(nodes, depth, parent))
    ensures Weight(ItemsOf(nodes, depth, parent)) == ForestSize(nodes)
  {
    if nodes != [] {
      ItemsAreElements(nodes[1..], depth, parent);
      var rest := ItemsOf(nodes[1..], depth, parent);
      if nodes[0].Element? {
        assert ItemsOf(nodes, depth, parent)[1..] == rest;
      } else {
        assert ItemsOf(nodes, depth, parent) == rest;
      }
    }
  }

  function ChildItems(item: Item): seq<Item>
    requires item.node.Element?
  {
    ItemsOf(item.node.children, item.depth + 1, Some(item.node.tag))
  }

  function Weight(items: seq<Item>): nat {
    if items == [] then 0 else Size(items[0].node) + Weight(items[1..])
  }

  lemma {:induction false} WeightAppend(a: seq<Item>, b: seq<Item>)
    ensures Weight(a + b) == Weight(a) + Weight(b)
  {
    if a == [] {
      assert a + b == b;
    } else {
      assert (a + b)[1..] == a[1..] + b;
      WeightAppend(a[1..], b);
    }
  }

  lemma Shift(queue: seq<Item>)
    requires queue != [] && AllElements(queue)
    ensures AllElements(queue[1..] + ChildItems(queue[0]))
    ensures Weight(queue[1..] + ChildItems(queue[0])) < Weight(queue)
  {
    ItemsAreElements(queue[0].node.children, queue[0].depth + 1, Some(queue[0].node.tag));
    WeightAppend(queue[1..], ChildItems(queue[0]));
  }

  /** The order in which a queue is worked off. */
  function BreadthFirst(queue: seq<Item>): seq<Item>
    requires AllElements(queue)
    decreases Weight(queue)
  {
    if queue == [] then []
    else Shift(queue); [queue[0]] + BreadthFirst(queue[1..] + ChildItems(queue[0]))
  }

  // ---------------------------------------------------------------- checks on one element

  predicate OccursAt(s: string, part: string, i: int) {
    0 <= i <= |s| - |part| && s[i..i + |part|] == part
  }

  predicate Contains(s: string, part: string) {
    exists i :: 0 <= i <= |s| - |part| && OccursAt(s, part, i)
  }

  predicate AttributesApply(tag: Tag, a: Attributes) {
    && (a.href.Some? ==> tag.A?)
    && (a.src.Some? ==> tag.Img?)
    && (a.alt.Some? ==> tag.Img?)
    && (a.scope.Some? ==> tag.Th?)
    && (a.colspan.Some? ==> tag.Td? || tag.Th?)
    && (a.rowspan.Some? ==> tag.Td? || tag.Th?)
    && (a.loading.Some? ==> tag.Img?)
    && (a.decoding.Some? ==> tag.Img?)
    && (a.publicationBlock.Some? ==> tag.Aside?)
    && (a.referenceId.Some? || a.citationId.Some? || a.footnoteId.Some? ==> tag.A?)
    && BlankIsSafe(a)
  }

  predicate BlankIsSafe(a: Attributes) {
    a.target == Some("_blank") ==> a.rel.Some? && Contains(a.rel.value, "noopener") && Contains(a.rel.value, "noreferrer")
  }

  predicate IsInternal(href: string) {
    |href| > 0 && href[0] == '#'
  }

  predicate UrlsSafe(tag: Tag, a: Attributes, policy: UrlPolicy) {
    && (tag.A? && a.href.Some? ==>
          if IsInternal(a.href.value) then policy.internalHref(a.href.value) else policy.externalUrl(a.href.value))
    && (tag.Img? && a.src.Some? ==> policy.assetUrl(a.src.value))
  }

  predicate ParentFits(tag: Tag, parent: Option<Tag>) {
    && (tag.Li? ==> parent == Some(Ol) || parent == Some(Ul))
    && (tag.Thead? || tag.Tbody? ==> parent == Some(Table))
    && (tag.Tr? ==> parent == Some(Thead) || parent == Some(Tbody))
    && (tag.Th? || tag.Td? ==> parent == Some(Tr))
  }

  predicate ElementOk(item: Item, assetIds: set<string>, policy: UrlPolicy)
    requires item.node.Element?
  {
    var n := item.node;
    && item.depth <= MAX_TREE_DEPTH
    && (n.kind.Image? ==> n.kind.assetId in assetIds)
    && AttributesApply(n.tag, n.attributes)
    && (IsVoid(n.tag) ==> n.children == [])
    && (n.tag.Img? ==> n.attributes.alt.Some? && n.attributes.src.Some?)
    && UrlsSafe(n.tag, n.attributes, policy)
    && ParentFits(n.tag, item.parent)
    && |n.children| <= MAX_CHILDREN
  }

  // ---------------------------------------------------------------- what a traversal adds up

  datatype Summary = Summary(
    visited: multiset<Item>, allOk: bool, ids: multiset<string>, mains: nat, fullMains: nat, targets: set<string>)

  function Nothing(): Summary {
    Summary(multiset{}, true, multiset{}, 0, 0, {})
  }

  function Join(a: Summary, b: Summary): Summary {
    Summary(a.visited + b.visited, a.allOk && b.allOk, a.ids + b.ids, a.mains + b.mains, a.fullMains + b.fullMains,
            a.targets + b.targets)
  }

  lemma JoinAssociates(a: Summary, b: Summary, c: Summary)
    ensures Join(Join(a, b), c) == Join(a, Join(b, c))
  {
    assert a.visited + b.visited + c.visited == a.visited + (b.visited + c.visited);
    assert a.ids + b.ids + c.ids == a.ids + (b.ids + c.ids);
    assert a.targets + b.targets + c.targets == a.targets + (b.targets + c.targets);
  }

  lemma JoinCommutes(a: Summary, b: Summary)
    ensures Join(a, b) == Join(b, a)
  {
    assert a.visited + b.visited == b.visited + a.visited;
    assert a.ids + b.ids == b.ids + a.ids;
    assert a.targets + b.targets == b.targets + a.targets;
  }

  lemma JoinNothing(a: Summary)
    ensures Join(a, Nothing()) == a && Join(Nothing(), a) == a
  {
    assert a.visited + multiset{} == a.visited;
    assert a.ids + multiset{} == a.ids;
    assert a.targets + {} == a.targets;
    JoinCommutes(a, Nothing());
  }

  /** The fragment an accepted internal link points at. */
  function TargetOf(n: Node, policy: UrlPolicy): set<string>
    requires n.Element?
  {
    if n.tag.A? && n.attributes.href.Some? && IsInternal(n.attributes.href.value) && policy.internalHref(n.attributes.href.value)
    then {n.attributes.href.value[1..]} else {}
  }

  function One(item: Item, assetIds: set<string>, policy: UrlPolicy): Summary {
    if item.node.Text? then Nothing() else
    var n := item.node;
    Summary(multiset{item}, ElementOk(item, assetIds, policy), if n.id.Some? then multiset{n.id.value} else multiset{},
            if n.tag.Main? then 1 else 0, if n.tag.Main? && n.children != [] then 1 else 0, TargetOf(n, policy))
  }

  function Contribution(assetIds: set<string>, policy: UrlPolicy): Item -> Summary {
    (item: Item) => One(item, assetIds, policy)
  }

  /** Summed in the order of a sequence. */
  function SumOf(items: seq<Item>, one: Item -> Summary): Summary {
    if items == [] then Nothing()
    else Join(SumOf(items[..|items| - 1], one), one(items[|items| - 1]))
  }

  /** Summed by recursion over the tree, with the depth and parent that the recursion knows. */
  function TreeSum(n: Node, depth: nat, parent: Option<Tag>, one: Item -> Summary): Summary
    decreases n, 0
  {
    match n
    case Text(_) => Nothing()
    case Element(_, _, tag, _, _, _, _, children) =>
      Join(one(Item(n, depth, parent)), ForestSum(children, depth + 1, Some(tag), one))
  }

  function ForestSum(ns: seq<Node>, depth: nat, parent: Option<Tag>, one: Item -> Summary): Summary
    decreases ns, 1
  {
    if ns == [] then Nothing()
    else Join(TreeSum(ns[0], depth, parent, one), ForestSum(ns[1..], depth, parent, one))
  }

  function QueueSum(items: seq<Item>, one: Item -> Summary): Summary {
    if items == [] then Nothing()
    else Join(TreeSum(items[0].node, items[0].depth, items[0].parent, one), QueueSum(items[1..], one))
  }

  lemma {:induction false} QueueSumAppend(a: seq<Item>, b: seq<Item>, one: Item -> Summary)
    ensures QueueSum(a + b, one) == Join(QueueSum(a, one), QueueSum(b, one))
  {
    if a == [] {
      assert a + b == b;
      JoinNothing(QueueSum(b, one));
    } else {
      assert (a + b)[1..] == a[1..] + b && (a + b)[0] == a[0];
      QueueSumAppend(a[1..], b, one);
      JoinAssociates(TreeSum(a[0].node, a[0].depth, a[0].parent, one), QueueSum(a[1..], one),
                     QueueSum(b, one));
    }
  }

  lemma {:induction false} ItemsSum(nodes: seq<Node>, depth: nat, parent: Option<Tag>, one: Item -> Summary)
    ensures QueueSum(ItemsOf(nodes, depth, parent), one) == ForestSum(nodes, depth, parent, one)
  {
    if nodes != [] {
      ItemsSum(nodes[1..], depth, parent, one);
      var rest := ItemsOf(nodes[1..], depth, parent);
      if nodes[0].Element? {
        var all := ItemsOf(nodes, depth, parent);
        assert all[1..] == rest && all[0] == Item(nodes[0], depth, parent);
      } else {
        assert ItemsOf(nodes, depth, parent) == rest;
        JoinNothing(QueueSum(rest, one));
      }
    }
  }

  lemma {:induction false} SumOfPrepend(x: Item, items: seq<Item>, one: Item -> Summary)
    ensures SumOf([x] + items, one) == Join(one(x), SumOf(items, one))
    decreases |items|
  {
    var all := [x] + items;
    if items == [] {
      assert all == [x] && all[..0] == [];
      JoinNothing(one(x));
    } else {
      var init, last := items[..|items| - 1], items[|items| - 1];
      assert all[..|all| - 1] == [x] + init && all[|all| - 1] == last;
      SumOfPrepend(x, init, one);
      JoinAssociates(one(x), SumOf(init, one), one(last));
    }
  }

  lemma ElementSum(item: Item, one: Item -> Summary)
    requires item.node.Element?
    ensures TreeSum(item.node, item.depth, item.parent, one) == Join(one(item), QueueSum(ChildItems(item), one))
  {
    ItemsSum(item.node.children, item.depth + 1, Some(item.node.tag), one);
    assert item == Item(item.node, item.depth, item.parent);
  }

  lemma QueueSumCons(first: Item, rest: seq<Item>, one: Item -> Summary)
    ensures QueueSum([first] + rest, one) == Join(TreeSum(first.node, first.depth, first.parent, one), QueueSum(rest, one))
  {
    assert ([first] + rest)[1..] == rest;
  }

  lemma QueueSumShift(first: Item, rest: seq<Item>, one: Item -> Summary)
    requires first.node.Element?
    ensures Join(one(first), QueueSum(rest + ChildItems(first), one)) == QueueSum([first] + rest, one)
  {
    var below := ChildItems(first);
    var f, r, b := one(first), QueueSum(rest, one), QueueSum(below, one);
    calc {
      Join(f, QueueSum(rest + below, one));
      { QueueSumAppend(rest, below, one); }
      Join(f, Join(r, b));
      { JoinCommutes(r, b); }
      Join(f, Join(b, r));
      { JoinAssociates(f, b, r); }
      Join(Join(f, b), r);
      { ElementSum(first, one); QueueSumCons(first, rest, one); }
      QueueSum([first] + rest, one);
    }
  }

  /** Working off a queue breadth-first visits every element below it exactly once, with its true depth and parent. */
  lemma {:induction false} QueueVisitsTree(queue: seq<Item>, one: Item -> Summary)
    requires AllElements(queue)
    ensures SumOf(BreadthFirst(queue), one) == QueueSum(queue, one)
    decreases Weight(queue)
  {
    if queue != [] {
      Shift(queue);
      var first, rest := queue[0], queue[1..];
      var next := rest + ChildItems(first);
      QueueVisitsTree(next, one);
      SumOfPrepend(first, BreadthFirst(next), one);
      QueueSumShift(first, rest, one);
      assert queue == [first] + rest;
    }
  }

  lemma {:induction false} BreadthFirstElements(queue: seq<Item>)
    requires AllElements(queue)
    ensures AllElements(BreadthFirst(queue))
    decreases Weight(queue)
  {
    if queue != [] {
      Shift(queue);
      BreadthFirstElements(queue[1..] + ChildItems(queue[0]));
    }
  }

  // ---------------------------------------------------------------- breadth-first is level by level

  function Children(items: seq<Item>): seq<Item>
    requires AllElements(items)
  {
    if items == [] then [] else ChildItems(items[0]) + Children(items[1..])
  }

  lemma {:induction false} ChildrenAreSmaller(items: seq<Item>)
    requires AllElements(items)
    ensures AllElements(Children(items)) && Weight(Children(items)) + |items| == Weight(items)
  {
    hide ForestSize;
    if items != [] {
      ItemsAreElements(items[0].node.children, items[0].depth + 1, Some(items[0].node.tag));
      var rest := items[1..];
      ChildrenAreSmaller(rest);
      WeightAppend(ChildItems(items[0]), Children(rest));
      assert Size(items[0].node) == 1 + ForestSize(items[0].node.children);
    }
  }

  /** One whole level, then the level of its children. */
  function LevelOrder(level: seq<Item>): seq<Item>
    requires AllElements(level)
    decreases Weight(level)
  {
    if level == [] then [] else ChildrenAreSmaller(level); level + LevelOrder(Children(level))
  }

  lemma BreadthFirstStep(first: Item, rest: seq<Item>)
    requires first.node.Element? && AllElements(rest)
    ensures AllElements(rest + ChildItems(first)) && AllElements([first] + rest)
    ensures BreadthFirst([first] + rest) == [first] + BreadthFirst(rest + ChildItems(first))
  {
    var queue := [first] + rest;
    assert queue[0] == first && queue[1..] == rest;
    Shift(queue);
  }

  lemma {:induction false} QueueFinishesLevel(level: seq<Item>, below: seq<Item>)
    requires AllElements(level) && AllElements(below)
    ensures AllElements(level + below) && AllElements(below + Children(level))
    ensures BreadthFirst(level + below) == level + BreadthFirst(below + Children(level))
    decreases |level|
  {
    ChildrenAreSmaller(level);
    if level == [] {
      assert level + below == below && below + Children(level) == below;
    } else {
      var first, rest := level[0], level[1..];
      var pushed := below + ChildItems(first);
      assert level == [first] + rest;
      FinishOne(first, rest, below);
      QueueFinishesLevel(rest, pushed);
      ChildrenCons(first, rest, below);
      Regroup(first, rest, BreadthFirst(below + Children(level)));
    }
  }

  lemma ChildrenCons(first: Item, rest: seq<Item>, below: seq<Item>)
    requires first.node.Element? && AllElements(rest)
    ensures AllElements([first] + rest)
    ensures (below + ChildItems(first)) + Children(rest) == below + Children([first] + rest)
  {
    assert ([first] + rest)[1..] == rest;
  }

  lemma Regroup(first: Item, rest: seq<Item>, tail: seq<Item>)
    ensures [first] + (rest + tail) == ([first] + rest) + tail
  {
  }

  lemma FinishOne(first: Item, rest: seq<Item>, below: seq<Item>)
    requires first.node.Element? && AllElements(rest) && AllElements(below)
    ensures var pushed := below + ChildItems(first);
      && AllElements(pushed) && AllElements(([first] + rest) + below) && AllElements(rest + pushed)
      && BreadthFirst(([first] + rest) + below) == [first] + BreadthFirst(rest + pushed)
  {
    ItemsAreElements(first.node.children, first.depth + 1, Some(first.node.tag));
    BreadthFirstStep(first, rest + below);
    assert ([first] + rest) + below == [first] + (rest + below);
    assert (rest + below) + ChildItems(first) == rest + (below + ChildItems(first));
  }

  lemma {:induction false} BreadthFirstIsLevelOrder(level: seq<Item>)
    requires AllElements(level)
    ensures BreadthFirst(level) == LevelOrder(level)
    decreases Weight(level)
  {
    if level != [] {
      ChildrenAreSmaller(level);
      assert level + [] == level && [] + Children(level) == Children(level);
      QueueFinishesLevel(level, []);
      BreadthFirstIsLevelOrder(Children(level));
    }
  }
}
