/** The document-level refinement of the HTML schema: a queue, growing sets and counters, against the recursive predicate. */
module HtmlSchema {
  import opened Basics
  import opened HtmlTree
  import opened HtmlValidator

  // ---------------------------------------------------------------- the recursive specification

  function RootItems(sections: seq<DocumentSection>): seq<Item> {
    if sections == [] then [] else ItemsOf(sections[0].elements, 1, None) + RootItems(sections[1..])
  }

  /** The document summed by recursion over its trees. */
  function DocumentSum(sections: seq<DocumentSection>, one: Item -> Summary): Summary {
    if sections == [] then Nothing()
    else Join(ForestSum(sections[0].elements, 1, None, one), DocumentSum(sections[1..], one))
  }

  function HeadingLevels(items: seq<Item>): seq<int> {
    if items == [] then []
    else HeadingLevels(items[..|items| - 1])
         + (var n := items[|items| - 1].node; if n.Element? && n.kind.Heading? then [n.kind.level] else [])
  }

  predicate HeadingsOk(levels: seq<int>) {
    && (levels != [] ==> levels[0] == 1)
    && forall i :: 0 < i < |levels| ==> levels[i] - levels[i - 1] <= 1
  }

  ghost predicate Unique(ids: multiset<string>) {
    forall x :: ids[x] <= 1
  }

  function RoleCount(landmarks: seq<Landmark>, role: string): nat {
    if landmarks == [] then 0
    else RoleCount(landmarks[..|landmarks| - 1], role) + (if landmarks[|landmarks| - 1].role == role then 1 else 0)
  }

  predicate LandmarkOk(landmarks: seq<Landmark>, landmark: Landmark, sectionIds: set<string>) {
    landmark.sectionId in sectionIds && !(RoleCount(landmarks, landmark.role) > 1 && landmark.labelText.None?)
  }

  function SectionIds(sections: seq<DocumentSection>): set<string> {
    set i | 0 <= i < |sections| :: sections[i].id
  }

  predicate DistinctSections(sections: seq<DocumentSection>) {
    forall i, k :: 0 <= i < k < |sections| ==> sections[i].id != sections[k].id
  }

  ghost predicate TreesOk(sum: Summary, headings: seq<int>, skipTarget: string) {
    && |sum.visited| <= MAX_TOTAL_ELEMENTS
    && sum.allOk
    && Unique(sum.ids)
    && sum.mains == 1 && sum.fullMains > 0
    && skipTarget in sum.ids
    && (forall target :: target in sum.targets ==> target in sum.ids)
    && HeadingsOk(headings)
  }

  predicate LandmarksOk(landmarks: seq<Landmark>, sectionIds: set<string>) {
    && (forall i :: 0 <= i < |landmarks| ==> LandmarkOk(landmarks, landmarks[i], sectionIds))
    && RoleCount(landmarks, "main") == 1
  }

  predicate AssetsOk(assetUris: seq<string>, policy: UrlPolicy) {
    forall i :: 0 <= i < |assetUris| ==> policy.assetUrl(assetUris[i])
  }

  /** The headings of the document level by level, which is the order in which the schema reads them. */
  function HeadingsByLevel(sections: seq<DocumentSection>): seq<int> {
    RootsAreElements(sections);
    HeadingLevels(LevelOrder(RootItems(sections)))
  }

  /** What an accepted document is, by recursion over its trees and by quantifiers. */
  ghost predicate Accepts(doc: Document, policy: UrlPolicy) {
    && AssetsOk(doc.assetUris, policy)
    && DistinctSections(doc.sections)
    && LandmarksOk(doc.landmarks, SectionIds(doc.sections))
    && TreesOk(DocumentSum(doc.sections, Contribution(doc.assetIds, policy)), HeadingsByLevel(doc.sections), doc.skipTarget)
  }

  lemma {:induction false} RootsAreElements(sections: seq<DocumentSection>)
    ensures AllElements(RootItems(sections))
  {
    if sections != [] {
      ItemsAreElements(sections[0].elements, 1, None);
      RootsAreElements(sections[1..]);
    }
  }

  lemma {:induction false} RootsSum(sections: seq<DocumentSection>, one: Item -> Summary)
    ensures QueueSum(RootItems(sections), one) == DocumentSum(sections, one)
  {
    if sections != [] {
      RootsSum(sections[1..], one);
      ItemsSum(sections[0].elements, 1, None, one);
      QueueSumAppend(ItemsOf(sections[0].elements, 1, None), RootItems(sections[1..]), one);
    }
  }

  // ---------------------------------------------------------------- what the loop knows about the part it has visited

  lemma OneIsItself(item: Item, assetIds: set<string>, policy: UrlPolicy)
    requires item.node.Element?
    ensures Contribution(assetIds, policy)(item).visited == multiset{item}
    ensures Contribution(assetIds, policy)(item).allOk ==> item.depth <= MAX_TREE_DEPTH
  {
  }

  lemma {:induction false} SumOfVisited(items: seq<Item>, one: Item -> Summary)
    requires forall i :: 0 <= i < |items| ==> one(items[i]).visited == multiset{items[i]}
    requires forall i :: 0 <= i < |items| ==> (one(items[i]).allOk ==> items[i].depth <= MAX_TREE_DEPTH)
    ensures SumOf(items, one).visited == multiset(items)
    ensures SumOf(items, one).allOk ==> forall i :: 0 <= i < |items| ==> items[i].depth <= MAX_TREE_DEPTH
    decreases |items|
  {
    if items != [] {
      var init, last := items[..|items| - 1], items[|items| - 1];
      SumOfVisited(init, one);
      assert items == init + [last];
    }
  }

  lemma SumOfSnoc(items: seq<Item>, last: Item, one: Item -> Summary)
    ensures SumOf(items + [last], one) == Join(SumOf(items, one), one(last))
  {
    assert (items + [last])[..|items|] == items;
  }

  lemma HeadingsSnoc(items: seq<Item>, last: Item)
    ensures HeadingLevels(items + [last])
      == HeadingLevels(items) + (if last.node.Element? && last.node.kind.Heading? then [last.node.kind.level] else [])
  {
    assert (items + [last])[..|items|] == items;
  }

  lemma UniqueWithOne(ids: multiset<string>, id: string)
    ensures Unique(ids + multiset{id}) <==> Unique(ids) && id !in ids
  {
    if Unique(ids + multiset{id}) {
      forall x ensures ids[x] <= 1 {
        assert (ids + multiset{id})[x] >= ids[x];
      }
      assert (ids + multiset{id})[id] == ids[id] + 1;
    }
  }

  /** Which attributes a tag may carry, asked one by one. */
  method ValidateTagAttributeApplicability(tag: Tag, a: Attributes) returns (ok: bool)
    ensures ok <==> AttributesApply(tag, a)
  {
    ok := true;
    if a.href.Some? && !tag.A? {
      ok := false;
    }
    if (a.src.Some? || a.alt.Some?) && !tag.Img? {
      ok := false;
    }
    if a.scope.Some? && !tag.Th? {
      ok := false;
    }
    if (a.colspan.Some? || a.rowspan.Some?) && !tag.Td? && !tag.Th? {
      ok := false;
    }
    if (a.loading.Some? || a.decoding.Some?) && !tag.Img? {
      ok := false;
    }
    if a.publicationBlock.Some? && !tag.Aside? {
      ok := false;
    }
    if (a.referenceId.Some? || a.citationId.Some? || a.footnoteId.Some?) && !tag.A? {
      ok := false;
    }
    var opens := OpensSafely(a);
    ok := ok && opens;
  }

  /** A link into a new window names both protections; a missing rel is an empty one. */
  method OpensSafely(a: Attributes) returns (ok: bool)
    ensures ok <==> BlankIsSafe(a)
  {
    ok := true;
    if a.target == Some("_blank") {
      var rel := if a.rel.Some? then a.rel.value else "";
      if !Contains(rel, "noopener") || !Contains(rel, "noreferrer") {
        ok := false;
      }
    }
  }

  /** The same checks as the code makes on one element, in its order. */
  method CheckElement(item: Item, assetIds: set<string>, policy: UrlPolicy) returns (ok: bool)
    requires item.node.Element? && item.depth <= MAX_TREE_DEPTH
    ensures ok <==> ElementOk(item, assetIds, policy)
  {
    var n, tag, a := item.node, item.node.tag, item.node.attributes;
    ok := true;
    if n.kind.Image? && n.kind.assetId !in assetIds {
      ok := false;
    }
    var applicable := ValidateTagAttributeApplicability(tag, a);
    ok := ok && applicable;
    if (tag.Img? || tag.Hr?) && |n.children| > 0 {
      ok := false;
    }
    if tag.Img? && (a.alt.None? || a.src.None?) {
      ok := false;
    }
    if tag.A? && a.href.Some? {
      if IsInternal(a.href.value) {
        ok := ok && policy.internalHref(a.href.value);
      } else {
        ok := ok && policy.externalUrl(a.href.value);
      }
    }
    if tag.Img? && a.src.Some? {
      ok := ok && policy.assetUrl(a.src.value);
    }
    if tag.Li? && item.parent != Some(Ol) && item.parent != Some(Ul) {
      ok := false;
    }
    if (tag.Thead? || tag.Tbody?) && item.parent != Some(Table) {
      ok := false;
    }
    if tag.Tr? && item.parent != Some(Thead) && item.parent != Some(Tbody) {
      ok := false;
    }
    if (tag.Th? || tag.Td?) && item.parent != Some(Tr) {
      ok := false;
    }
    if |n.children| > MAX_CHILDREN {
      ok := false;
    }
  }

  /** What the traversal has found out about a document: nothing if it gave up, otherwise everything there is to know. */
  datatype Traversal =
    | GaveUp
    | Finished(ok: bool, ids: set<string>, mains: nat, hasNonEmptyMain: bool, targets: set<string>, headings: seq<int>)

  /** The finished traversal is right about the sum of everything visited. */
  ghost predicate Knows(t: Traversal, sum: Summary, headings: seq<int>) {
    && t.Finished?
    && (t.ok <==> sum.allOk && Unique(sum.ids))
    && (forall x :: x in t.ids <==> x in sum.ids)
    && t.mains == sum.mains && (t.hasNonEmptyMain <==> sum.fullMains > 0)
    && t.targets == sum.targets && t.headings == headings
  }

  /** What visiting one more element has to add. */
  lemma KnowsOneMore(t: Traversal, sum: Summary, headings: seq<int>, o: Summary, id: Option<string>, more: seq<int>, after: Traversal)
    requires Knows(t, sum, headings)
    requires o.ids == if id.Some? then multiset{id.value} else multiset{}
    requires after.Finished? && after.ids == (if id.Some? then t.ids + {id.value} else t.ids)
    requires after.ok <==> t.ok && o.allOk && (id.Some? ==> id.value !in t.ids)
    requires after.mains == t.mains + o.mains && (after.hasNonEmptyMain <==> t.hasNonEmptyMain || o.fullMains > 0)
    requires after.targets == t.targets + o.targets && after.headings == t.headings + more
    ensures Knows(after, Join(sum, o), headings + more)
  {
    if id.Some? {
      UniqueWithOne(sum.ids, id.value);
    } else {
      assert sum.ids + multiset{} == sum.ids;
    }
  }

  lemma ContributionParts(item: Item, assetIds: set<string>, policy: UrlPolicy)
    requires item.node.Element?
    ensures var n, o := item.node, Contribution(assetIds, policy)(item);
      && (o.allOk <==> ElementOk(item, assetIds, policy))
      && o.ids == (if n.id.Some? then multiset{n.id.value} else multiset{})
      && o.mains == (if n.tag.Main? then 1 else 0)
      && (o.fullMains > 0 <==> n.tag.Main? && |n.children| > 0)
      && o.targets == TargetOf(n, policy)
  {
  }

  method Visit(t: Traversal, item: Item, ghost visited: seq<Item>, assetIds: set<string>, policy: UrlPolicy) returns (after: Traversal)
    requires item.node.Element? && item.depth <= MAX_TREE_DEPTH
    requires Knows(t, SumOf(visited, Contribution(assetIds, policy)), HeadingLevels(visited))
    ensures Knows(after, SumOf(visited + [item], Contribution(assetIds, policy)), HeadingLevels(visited + [item]))
  {
    hide SumOf, HeadingLevels, ElementOk, TargetOf, Unique;
    var n := item.node;
    var ok, ids, mains, nonEmpty, targets, headings := t.ok, t.ids, t.mains, t.hasNonEmptyMain, t.targets, t.headings;
    if n.id.Some? {
      if n.id.value in ids {
        ok := false;
      }
      ids := ids + {n.id.value};
    }
    if n.tag.Main? {
      mains := mains + 1;
      if |n.children| > 0 {
        nonEmpty := true;
      }
    }
    if n.kind.Heading? {
      headings := headings + [n.kind.level];
    }
    var elementOk := CheckElement(item, assetIds, policy);
    ok := ok && elementOk;
    var linked := TargetOf(n, policy);
    targets := targets + linked;
    after := Finished(ok, ids, mains, nonEmpty, targets, headings);
    ContributionParts(item, assetIds, policy);
    SumOfSnoc(visited, item, Contribution(assetIds, policy));
    HeadingsSnoc(visited, item);
    KnowsOneMore(t, SumOf(visited, Contribution(assetIds, policy)), HeadingLevels(visited),
                 Contribution(assetIds, policy)(item), n.id, if n.kind.Heading? then [n.kind.level] else [], after);
  }

  lemma OrderFacts(roots: seq<Item>, assetIds: set<string>, policy: UrlPolicy)
    requires AllElements(roots)
    ensures var order, sum := BreadthFirst(roots), SumOf(BreadthFirst(roots), Contribution(assetIds, policy));
      && order == LevelOrder(roots)
      && |sum.visited| == |order|
      && (sum.allOk ==> forall i :: 0 <= i < |order| ==> order[i].depth <= MAX_TREE_DEPTH)
  {
    var order := BreadthFirst(roots);
    BreadthFirstElements(roots);
    forall i | 0 <= i < |order|
      ensures Contribution(assetIds, policy)(order[i]).visited == multiset{order[i]}
      ensures Contribution(assetIds, policy)(order[i]).allOk ==> order[i].depth <= MAX_TREE_DEPTH
    {
      OneIsItself(order[i], assetIds, policy);
    }
    SumOfVisited(order, Contribution(assetIds, policy));
    BreadthFirstIsLevelOrder(roots);
  }

  lemma QueueHead(queue: seq<Item>, visited: seq<Item>, order: seq<Item>)
    requires queue != [] && AllElements(queue) && order == visited + BreadthFirst(queue)
    ensures AllElements(queue[1..] + ChildItems(queue[0]))
    ensures Weight(queue[1..] + ChildItems(queue[0])) < Weight(queue)
    ensures order == (visited + [queue[0]]) + BreadthFirst(queue[1..] + ChildItems(queue[0]))
    ensures |order| > |visited| && order[|visited|] == queue[0]
  {
    Shift(queue);
  }

  /** The queue loop. It gives up exactly on documents with too many elements or too deep a nesting. */
  method Traverse(roots: seq<Item>, assetIds: set<string>, policy: UrlPolicy) returns (t: Traversal)
    requires AllElements(roots)
    ensures var sum := SumOf(BreadthFirst(roots), Contribution(assetIds, policy));
      if t.GaveUp? then |sum.visited| > MAX_TOTAL_ELEMENTS || !sum.allOk
      else |sum.visited| <= MAX_TOTAL_ELEMENTS && Knows(t, sum, HeadingLevels(LevelOrder(roots)))
  {
    ghost var order := BreadthFirst(roots);
    ghost var one := Contribution(assetIds, policy);
    OrderFacts(roots, assetIds, policy);
    var queue, totalElements := roots, 0;
    ghost var visited: seq<Item> := [];
    t := Finished(true, {}, 0, false, {}, []);
    while |queue| > 0
      invariant AllElements(queue) && order == visited + BreadthFirst(queue)
      invariant totalElements == |visited| <= MAX_TOTAL_ELEMENTS
      invariant Knows(t, SumOf(visited, one), HeadingLevels(visited))
      decreases Weight(queue)
    {
      var current := queue[0];
      QueueHead(queue, visited, order);
      totalElements := totalElements + 1;
      if totalElements > MAX_TOTAL_ELEMENTS {
        return GaveUp;
      }
      if current.depth > MAX_TREE_DEPTH {
        return GaveUp;
      }
      t := Visit(t, current, visited, assetIds, policy);
      visited := visited + [current];
      queue := queue[1..] + ChildItems(current);
    }
    assert BreadthFirst(queue) == [];
    assert order == visited;
  }

  method SkipsNoLevel(headings: seq<int>) returns (ok: bool)
    ensures ok <==> HeadingsOk(headings)
  {
    ok := true;
    if |headings| > 0 && headings[0] != 1 {
      ok := false;
    }
    var index := 1;
    while index < |headings|
      invariant 1 <= index
      invariant ok <==> (headings != [] ==> headings[0] == 1)
      invariant forall i :: 0 < i < index && i < |headings| ==> headings[i] - headings[i - 1] <= 1
    {
      if headings[index] - headings[index - 1] > 1 {
        return false;
      }
      index := index + 1;
    }
  }

  lemma SectionMore(done: seq<DocumentSection>, section: DocumentSection)
    ensures SectionIds(done + [section]) == SectionIds(done) + {section.id}
    ensures DistinctSections(done + [section]) <==> DistinctSections(done) && section.id !in SectionIds(done)
  {
    var more := done + [section];
    assert more[|done|] == section && forall i :: 0 <= i < |done| ==> more[i] == done[i];
    forall id | id in SectionIds(done) ensures id in SectionIds(more) {
      var i :| 0 <= i < |done| && done[i].id == id;
      assert more[i].id == id;
    }
  }

  method CollectRoots(sections: seq<DocumentSection>) returns (distinct: bool, sectionIds: set<string>, queue: seq<Item>)
    ensures distinct <==> DistinctSections(sections)
    ensures sectionIds == SectionIds(sections)
    ensures queue == RootItems(sections)
  {
    distinct, sectionIds, queue := true, {}, [];
    for index := 0 to |sections|
      invariant distinct <==> DistinctSections(sections[..index])
      invariant sectionIds == SectionIds(sections[..index])
      invariant RootItems(sections) == queue + RootItems(sections[index..])
    {
      var section := sections[index];
      SectionMore(sections[..index], section);
      assert sections[..index + 1] == sections[..index] + [section];
      if section.id in sectionIds {
        distinct := false;
      }
      sectionIds := sectionIds + {section.id};
      var pushed := ItemsOf(section.elements, 1, None);
      assert sections[index..][1..] == sections[index + 1..];
      queue := queue + pushed;
    }
    assert sections[..|sections|] == sections;
  }

  method CheckLandmarks(landmarks: seq<Landmark>, sectionIds: set<string>) returns (ok: bool)
    ensures ok <==> forall i :: 0 <= i < |landmarks| ==> LandmarkOk(landmarks, landmarks[i], sectionIds)
  {
    ok := true;
    for index := 0 to |landmarks|
      invariant ok <==> forall i :: 0 <= i < index ==> LandmarkOk(landmarks, landmarks[i], sectionIds)
    {
      if landmarks[index].sectionId !in sectionIds {
        ok := false;
      }
      if RoleCount(landmarks, landmarks[index].role) > 1 && landmarks[index].labelText.None? {
        ok := false;
      }
    }
  }

  lemma DocumentVisited(sections: seq<DocumentSection>, one: Item -> Summary)
    ensures AllElements(RootItems(sections))
    ensures SumOf(BreadthFirst(RootItems(sections)), one) == DocumentSum(sections, one)
  {
    RootsAreElements(sections);
    QueueVisitsTree(RootItems(sections), one);
    RootsSum(sections, one);
  }

  /** The traversal visits every element of the document exactly once, with the depth and parent it has in the tree. */
  lemma EachElementOnce(doc: Document, policy: UrlPolicy)
    ensures AllElements(RootItems(doc.sections))
    ensures multiset(BreadthFirst(RootItems(doc.sections)))
      == DocumentSum(doc.sections, Contribution(doc.assetIds, policy)).visited
  {
    DocumentVisited(doc.sections, Contribution(doc.assetIds, policy));
    BreadthFirstElements(RootItems(doc.sections));
    ContributionsVisit(BreadthFirst(RootItems(doc.sections)), doc.assetIds, policy);
  }

  lemma ContributionsVisit(items: seq<Item>, assetIds: set<string>, policy: UrlPolicy)
    requires AllElements(items)
    ensures SumOf(items, Contribution(assetIds, policy)).visited == multiset(items)
  {
    var one := Contribution(assetIds, policy);
    forall item | item in items ensures one(item).visited == multiset{item} && (one(item).allOk ==> item.depth <= MAX_TREE_DEPTH) {
      OneIsItself(item, assetIds, policy);
    }
    SumOfVisited(items, one);
  }

  lemma VerdictIsRight(t: Traversal, sum: Summary, headings: seq<int>, skipTarget: string)
    requires if t.GaveUp? then |sum.visited| > MAX_TOTAL_ELEMENTS || !sum.allOk
             else |sum.visited| <= MAX_TOTAL_ELEMENTS && Knows(t, sum, headings)
    ensures TreesOk(sum, headings, skipTarget)
      <==> t.Finished? && t.ok && skipTarget in t.ids && t.mains == 1 && t.hasNonEmptyMain && t.targets <= t.ids && HeadingsOk(t.headings)
  {
  }

  method CheckTrees(queue: seq<Item>, doc: Document, policy: UrlPolicy) returns (ok: bool)
    requires queue == RootItems(doc.sections)
    ensures ok <==> TreesOk(DocumentSum(doc.sections, Contribution(doc.assetIds, policy)), HeadingsByLevel(doc.sections), doc.skipTarget)
  {
    ghost var one := Contribution(doc.assetIds, policy);
    DocumentVisited(doc.sections, one);
    var t := Traverse(queue, doc.assetIds, policy);
    ghost var sum, levels := DocumentSum(doc.sections, one), HeadingsByLevel(doc.sections);
    VerdictIsRight(t, sum, levels, doc.skipTarget);
    if t.GaveUp? {
      return false;
    }
    var headingsOk := SkipsNoLevel(t.headings);
    ok := t.ok && doc.skipTarget in t.ids && t.mains == 1 && t.hasNonEmptyMain && t.targets <= t.ids && headingsOk;
  }
}
