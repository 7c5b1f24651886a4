/** Generating table-of-contents entries from sections, and why the composed contents list is never refused. */
module TocGeneration {
  import opened Basics
  import opened TocEntries
  import opened TocTree
  import opened TocForest

  datatype Block =
    | HeadingBlock(id: string, level: int, text: string)
    | OtherBlock(id: string)

  datatype Section = Section(id: string, title: string, blocks: seq<Block>)

  function NormalizeHeadingLevel(previousLevel: int, requested: int): int {
    if requested <= 1 then 2
    else
      var nextMax := Min(3, previousLevel + 1);
      if requested > nextMax then nextMax else requested
  }

  // ---------------------------------------------------------------- what the contents list must say

  /** One line of the outline: what it points at, and at which level it is asked for. */
  datatype Item = Item(targetId: string, title: string, level: int)

  predicate Reserved(id: string) {
    id == "cover" || id == "table-of-contents"
  }

  function Headings(blocks: seq<Block>): seq<Item> {
    if blocks == [] then []
    else
      var last := blocks[|blocks| - 1];
      Headings(blocks[..|blocks| - 1]) +
      (if last.HeadingBlock? && last.level > 1 then [Item(last.id, last.text, last.level)] else [])
  }

  /** Every section but the reserved ones, each followed by its headings below level one. */
  function Outline(sections: seq<Section>): seq<Item> {
    if sections == [] then []
    else
      var last := sections[|sections| - 1];
      Outline(sections[..|sections| - 1]) +
      (if Reserved(last.id) then [] else [Item(last.id, last.title, 1)] + Headings(last.blocks))
  }

  /** The nearest earlier entry that is less deep. */
  ghost predicate NearestAbove(entries: seq<Entry>, k: nat, i: nat)
    requires i < |entries|
  {
    k < i && entries[k].level < entries[i].level && forall j :: k < j < i ==> entries[j].level >= entries[i].level
  }

  /** A section is a root. A heading gets the level asked for, but no skip of a level, and hangs below the nearest less deep entry. */
  ghost predicate Placed(entries: seq<Entry>, items: seq<Item>, i: nat)
    requires i < |entries| && i < |items|
  {
    && entries[i].targetId == items[i].targetId
    && entries[i].title == items[i].title
    && entries[i].id == "toc-" + items[i].targetId
    && (items[i].level == 1 ==> entries[i].level == 1 && entries[i].parentId == None)
    && (items[i].level > 1 ==>
          && i > 0
          && entries[i].level == Min(items[i].level, Min(3, entries[i - 1].level + 1))
          && exists k: nat ::
               && NearestAbove(entries, k, i)
               && entries[i].parentId == Some(entries[k].id)
               && entries[k].level == entries[i].level - 1)
  }

  ghost predicate FollowsOutline(entries: seq<Entry>, items: seq<Item>) {
    |entries| == |items| && forall i :: 0 <= i < |items| ==> Placed(entries, items, i)
  }

  lemma FollowsMore(entries: seq<Entry>, items: seq<Item>, entry: Entry, item: Item)
    requires FollowsOutline(entries, items)
    requires Placed(entries + [entry], items + [item], |entries|)
    ensures FollowsOutline(entries + [entry], items + [item])
  {
    var longer, more := entries + [entry], items + [item];
    forall i | 0 <= i < |more| ensures Placed(longer, more, i) {
      if i < |items| {
        assert Placed(entries, items, i);
        if items[i].level > 1 {
          var k: nat :|
            NearestAbove(entries, k, i) && entries[i].parentId == Some(entries[k].id) && entries[k].level == entries[i].level - 1;
          assert NearestAbove(longer, k, i);
        }
      }
    }
  }

  /** Where the generator stands inside a section: the section's entry, and the last second-level entry after it. */
  ghost predicate InSection(entries: seq<Entry>, at: nat, sectionEntryId: string, previousLevel: int,
                            parentLevel2Id: Option<string>, second: nat)
  {
    && at < |entries|
    && entries[at].id == sectionEntryId && entries[at].level == 1
    && previousLevel == entries[|entries| - 1].level && 1 <= previousLevel <= 3
    && (forall j :: at < j < |entries| ==> 2 <= entries[j].level <= 3)
    && (parentLevel2Id == None ==> |entries| == at + 1)
    && (parentLevel2Id.Some? ==>
          && at < second < |entries|
          && entries[second].level == 2 && entries[second].id == parentLevel2Id.value
          && forall j :: second < j < |entries| ==> entries[j].level == 3)
  }

  /** The next heading of a section lands where the outline wants it, and the generator knows where it stands after it. */
  lemma HeadingFits(entries: seq<Entry>, items: seq<Item>, at: nat, sectionEntryId: string, previousLevel: int,
                    parentLevel2Id: Option<string>, second: nat, item: Item, entry: Entry)
    requires FollowsOutline(entries, items) && item.level > 1
    requires InSection(entries, at, sectionEntryId, previousLevel, parentLevel2Id, second)
    requires entry.id == "toc-" + item.targetId && entry.targetId == item.targetId && entry.title == item.title
    requires entry.level == NormalizeHeadingLevel(previousLevel, item.level)
    requires entry.parentId ==
             Some(if entry.level == 2 || parentLevel2Id == None then sectionEntryId else parentLevel2Id.value)
    ensures FollowsOutline(entries + [entry], items + [item])
    ensures InSection(entries + [entry], at, sectionEntryId, entry.level,
                      if entry.level == 2 then Some(entry.id) else parentLevel2Id,
                      if entry.level == 2 then |entries| else second)
  {
    assert NearestAbove(entries + [entry], if entry.level == 2 then at else second, |entries|);
    FollowsMore(entries, items, entry, item);
  }

  /** Two nested loops that carry the previous level and the last second-level entry. */
  method CreateTocEntriesForSections(sections: seq<Section>) returns (entries: seq<Entry>)
    ensures FollowsOutline(entries, Outline(sections))
  {
    entries := [];
    for i := 0 to |sections|
      invariant FollowsOutline(entries, Outline(sections[..i]))
    {
      var section := sections[i];
      assert sections[..i + 1][..i] == sections[..i];
      ghost var before := Outline(sections[..i]);
      if section.id != "cover" && section.id != "table-of-contents" {
        var sectionEntryId := "toc-" + section.id;
        var entry := Entry(sectionEntryId, section.id, section.title, 1, None);
        FollowsMore(entries, before, entry, Item(section.id, section.title, 1));
        ghost var at := |entries|;
        entries := entries + [entry];
        before := before + [Item(section.id, section.title, 1)];
        entries := AddHeadings(entries, section.blocks, sectionEntryId, before, at);
        assert before + Headings(section.blocks) ==
               Outline(sections[..i]) + ([Item(section.id, section.title, 1)] + Headings(section.blocks));
      } else {
        assert Outline(sections[..i]) + [] == Outline(sections[..i]);
      }
    }
    assert sections[..|sections|] == sections;
  }

  /** The inner loop. */
  method AddHeadings(start: seq<Entry>, blocks: seq<Block>, sectionEntryId: string, ghost items: seq<Item>, ghost at: nat)
    returns (entries: seq<Entry>)
    requires FollowsOutline(start, items)
    requires |start| == at + 1 && start[at].id == sectionEntryId && start[at].level == 1
    ensures FollowsOutline(entries, items + Headings(blocks))
  {
    entries := start;
    var previousLevel, parentLevel2Id := 1, None;
    ghost var second: nat := 0;
    assert items + Headings(blocks[..0]) == items;
    for k := 0 to |blocks|
      invariant FollowsOutline(entries, items + Headings(blocks[..k]))
      invariant InSection(entries, at, sectionEntryId, previousLevel, parentLevel2Id, second)
    {
      var block := blocks[k];
      ghost var before := items + Headings(blocks[..k]);
      assert blocks[..k + 1][..k] == blocks[..k];
      if block.HeadingBlock? && block.level > 1 {
        var normalizedLevel := NormalizeHeadingLevel(previousLevel, block.level);
        var entryId := "toc-" + block.id;
        var parentId :=
          if normalizedLevel == 2 || parentLevel2Id == None then sectionEntryId else parentLevel2Id.value;
        var entry := Entry(entryId, block.id, block.text, normalizedLevel, Some(parentId));
        ghost var item := Item(block.id, block.text, block.level);
        HeadingFits(entries, before, at, sectionEntryId, previousLevel, parentLevel2Id, second, item, entry);
        assert items + Headings(blocks[..k + 1]) == before + [item];
        entries := entries + [entry];
        if normalizedLevel == 2 {
          parentLevel2Id := Some(entryId);
          second := |entries| - 1;
        }
        previousLevel := normalizedLevel;
      } else {
        assert items + Headings(blocks[..k + 1]) == before;
      }
    }
    assert blocks[..|blocks|] == blocks;
  }

  // ---------------------------------------------------------------- the validation of generated entries

  /** Kept lines of the outline point at different places. */
  predicate DistinctTargets(items: seq<Item>) {
    forall i, k :: 0 <= i < k < |items| && !Reserved(items[i].targetId) && !Reserved(items[k].targetId) ==>
      items[i].targetId != items[k].targetId
  }

  /** No kept entry hangs below an entry that the validation drops. */
  ghost predicate ParentsKept(entries: seq<Entry>) {
    forall k: nat, i: nat ::
      i < |entries| && NearestAbove(entries, k, i) && entries[i].parentId == Some(entries[k].id) && Kept(entries[i]) ==>
      Kept(entries[k])
  }

  lemma {:induction false} FilteredHas(entries: seq<Entry>)
    ensures forall e :: e in Filtered(entries) <==> e in entries && Kept(e)
    decreases |entries|
  {
    if entries != [] {
      FilteredHas(entries[..|entries| - 1]);
      assert entries == entries[..|entries| - 1] + [entries[|entries| - 1]];
    }
  }

  lemma {:induction false} FilteredAll(entries: seq<Entry>)
    requires forall i :: 0 <= i < |entries| ==> Kept(entries[i])
    ensures Filtered(entries) == entries
    decreases |entries|
  {
    if entries != [] {
      FilteredAll(entries[..|entries| - 1]);
      assert entries == entries[..|entries| - 1] + [entries[|entries| - 1]];
    }
  }

  predicate DistinctKept(entries: seq<Entry>) {
    forall i, k :: 0 <= i < k < |entries| && Kept(entries[i]) && Kept(entries[k]) ==> entries[i].id != entries[k].id
  }

  lemma {:induction false} FilteredUnique(entries: seq<Entry>)
    ensures UniqueIds(Filtered(entries)) <==> DistinctKept(entries)
    decreases |entries|
  {
    if entries != [] {
      var init, last := entries[..|entries| - 1], entries[|entries| - 1];
      FilteredUnique(init);
      FilteredHas(init);
      var f := Filtered(init);
      assert forall i :: 0 <= i < |init| ==> init[i] == entries[i];
      if Kept(last) {
        assert UniqueIds(f + [last]) <==> UniqueIds(f) && forall k :: 0 <= k < |f| ==> f[k].id != last.id by {
          LastIsNew(f, last);
        }
        if UniqueIds(f + [last]) {
          forall i | 0 <= i < |init| && Kept(init[i]) ensures init[i].id != last.id {
            assert init[i] in f;
          }
        }
        if DistinctKept(entries) {
          forall k | 0 <= k < |f| ensures f[k].id != last.id {
            assert f[k] in f;
          }
        }
      } else {
        assert f + [] == f;
      }
    }
  }

  lemma LastIsNew(f: seq<Entry>, last: Entry)
    ensures UniqueIds(f + [last]) <==> UniqueIds(f) && forall k :: 0 <= k < |f| ==> f[k].id != last.id
  {
    var g := f + [last];
    assert forall i :: 0 <= i < |f| ==> g[i] == f[i];
    assert g[|f|] == last;
    if UniqueIds(g) {
      forall i, k | 0 <= i < k < |f| ensures f[i].id != f[k].id {
        assert g[i].id != g[k].id;
      }
      forall k | 0 <= k < |f| ensures f[k].id != last.id {
        assert g[k].id != g[|f|].id;
      }
    }
  }

  lemma SamePrefix(a: string, b: string, prefix: string)
    ensures prefix + a == prefix + b <==> a == b
  {
    if prefix + a == prefix + b {
      assert (prefix + a)[|prefix|..] == a && (prefix + b)[|prefix|..] == b;
    }
  }

  lemma IdsFollowTargets(entries: seq<Entry>, items: seq<Item>)
    requires FollowsOutline(entries, items)
    ensures DistinctKept(entries) <==> DistinctTargets(items)
  {
    forall i, k | 0 <= i < |entries| && 0 <= k < |entries|
      ensures entries[i].id == entries[k].id <==> items[i].targetId == items[k].targetId
      ensures Kept(entries[i]) <==> !Reserved(items[i].targetId)
    {
      assert Placed(entries, items, i) && Placed(entries, items, k);
      SamePrefix(items[i].targetId, items[k].targetId, "toc-");
    }
  }

  /** An accepted entry's parent can be looked up, and it is the kept entry the parent id names. */
  lemma KeptInParents(entries: seq<Entry>, e: Entry)
    requires DistinctKept(entries) && e in entries && Kept(e)
    ensures e.id in Parents(Filtered(entries)) && Parents(Filtered(entries))[e.id] == e.parentId
  {
    FilteredUnique(entries);
    FilteredHas(entries);
    var k :| 0 <= k < |Filtered(entries)| && Filtered(entries)[k] == e;
    EntryInParents(Filtered(entries), k);
  }

  lemma RootedBelow(parents: ParentMap, id: string, parent: string)
    requires id in parents && parents[id] == Some(parent) && Rooted(parents, parent)
    ensures Rooted(parents, id)
  {
    var chain :| RootChain(parents, parent, chain);
    var longer := [id] + chain;
    forall j | 0 <= j < |longer| - 1 ensures parents[longer[j]] == Some(longer[j + 1]) {
      if j > 0 {
        assert longer[j] == chain[j - 1] && longer[j + 1] == chain[j];
      }
    }
    assert RootChain(parents, id, longer);
  }

  /** Levels of an outline start at one: sections ask for one, headings for more. */
  predicate Levels(items: seq<Item>) {
    forall i :: 0 <= i < |items| ==> items[i].level >= 1
  }

  /** Parents come earlier, so every walk upwards ends. */
  lemma {:induction false} KeptIsRooted(entries: seq<Entry>, items: seq<Item>, i: nat)
    requires FollowsOutline(entries, items) && Levels(items) && DistinctKept(entries) && ParentsKept(entries)
    requires i < |entries| && Kept(entries[i])
    ensures Rooted(Parents(Filtered(entries)), entries[i].id)
    decreases i
  {
    var parents := Parents(Filtered(entries));
    KeptInParents(entries, entries[i]);
    assert Placed(entries, items, i);
    if items[i].level > 1 {
      var k: nat :| NearestAbove(entries, k, i) && entries[i].parentId == Some(entries[k].id);
      KeptIsRooted(entries, items, k);
      RootedBelow(parents, entries[i].id, entries[k].id);
    } else {
      assert RootChain(parents, entries[i].id, [entries[i].id]);
    }
  }

  lemma {:induction false} OutlineLevels(sections: seq<Section>)
    ensures Levels(Outline(sections))
    decreases |sections|
  {
    if sections != [] {
      OutlineLevels(sections[..|sections| - 1]);
      HeadingLevels(sections[|sections| - 1].blocks);
    }
  }

  lemma {:induction false} HeadingLevels(blocks: seq<Block>)
    ensures Levels(Headings(blocks))
    decreases |blocks|
  {
    if blocks != [] {
      HeadingLevels(blocks[..|blocks| - 1]);
    }
  }

  lemma OrphanRefused(entries: seq<Entry>, k: nat, i: nat)
    requires i < |entries| && DistinctKept(entries) && NearestAbove(entries, k, i)
    requires Kept(entries[i]) && !Kept(entries[k]) && entries[i].parentId == Some(entries[k].id)
    requires forall j :: 0 <= j < |entries| ==> entries[j].id == "toc-" + entries[j].targetId
    ensures !ParentsExist(Parents(Filtered(entries)))
  {
    var f := Filtered(entries);
    KeptInParents(entries, entries[i]);
    FilteredHas(entries);
    ParentsOf(f);
    if Listed(f, entries[k].id) {
      var m :| 0 <= m < |f| && f[m].id == entries[k].id;
      assert f[m] in f;
      SamePrefix(f[m].targetId, entries[k].targetId, "toc-");
      assert false;
    }
  }

  /** In terms of the entries: accepted exactly when kept targets are distinct and no kept entry hangs below a dropped one. */
  lemma AcceptedIffParentsKept(sections: seq<Section>, entries: seq<Entry>)
    requires FollowsOutline(entries, Outline(sections))
    ensures IsForest(Filtered(entries)) <==> DistinctTargets(Outline(sections)) && ParentsKept(entries)
  {
    var items := Outline(sections);
    OutlineLevels(sections);
    IdsFollowTargets(entries, items);
    FilteredUnique(entries);
    if DistinctKept(entries) {
      if ParentsKept(entries) {
        var parents := Parents(Filtered(entries));
        ParentsOf(Filtered(entries));
        FilteredHas(entries);
        forall id | id in parents ensures Rooted(parents, id) {
          var m :| 0 <= m < |Filtered(entries)| && Filtered(entries)[m].id == id;
          assert Filtered(entries)[m] in Filtered(entries);
          var i :| 0 <= i < |entries| && entries[i] == Filtered(entries)[m];
          KeptIsRooted(entries, items, i);
        }
        RootedIsAcyclic(parents);
        RootedHaveParents(parents);
      } else {
        var k: nat, i: nat :| i < |entries| && NearestAbove(entries, k, i) && entries[i].parentId == Some(entries[k].id) &&
                              Kept(entries[i]) && !Kept(entries[k]);
        forall j | 0 <= j < |entries| ensures entries[j].id == "toc-" + entries[j].targetId {
          assert Placed(entries, items, j);
        }
        OrphanRefused(entries, k, i);
      }
    }
  }

  lemma RootedHaveParents(parents: ParentMap)
    requires forall id :: id in parents ==> Rooted(parents, id)
    ensures ParentsExist(parents)
  {
    forall id | id in parents && parents[id].Some? ensures parents[id].value in parents {
      Onwards(parents, id, ChainOf(parents, id));
      assert ChainOf(parents, id)[1] in parents;
    }
  }

  // ---------------------------------------------------------------- the same in terms of the sections

  /** The level a heading of a section ends up with: the first heading comes second, after it three is the deepest. */
  function Effective(headings: seq<Item>, k: nat): int
    requires k < |headings|
  {
    if k == 0 then 2 else Min(headings[k].level, 3)
  }

  /** Heading j is the last one at level two before heading n at level three. */
  predicate Under(headings: seq<Item>, j: nat, n: nat) {
    && j < n < |headings| && Effective(headings, j) == 2 && Effective(headings, n) == 3
    && forall m: nat :: j < m < n ==> Effective(headings, m) == 3
  }

  /** In a section, what stands at the third level below a heading of a reserved name has a reserved name too. */
  ghost predicate KeepsParents(headings: seq<Item>) {
    forall j: nat, n: nat :: Under(headings, j, n) && Reserved(headings[j].targetId) ==> Reserved(headings[n].targetId)
  }

  ghost predicate SectionsKeepParents(sections: seq<Section>) {
    forall i :: 0 <= i < |sections| && !Reserved(sections[i].id) ==> KeepsParents(Headings(sections[i].blocks))
  }

  function ItemLevel(items: seq<Item>, i: nat): int
    requires i < |items|
  {
    if items[i].level <= 1 then 1
    else if i == 0 || items[i - 1].level <= 1 then 2
    else Min(items[i].level, 3)
  }

  predicate Above(items: seq<Item>, k: nat, i: nat)
    requires i < |items|
  {
    k < i && ItemLevel(items, k) < ItemLevel(items, i) && forall j: nat | k < j < i :: ItemLevel(items, j) >= ItemLevel(items, i)
  }

  ghost predicate ItemsKeepParents(items: seq<Item>) {
    forall k: nat, i: nat :: i < |items| && Above(items, k, i) && Reserved(items[k].targetId) ==> Reserved(items[i].targetId)
  }

  lemma {:induction false} EntryLevels(entries: seq<Entry>, items: seq<Item>, i: nat)
    requires FollowsOutline(entries, items) && Levels(items) && i < |items|
    ensures entries[i].level == ItemLevel(items, i)
    decreases i
  {
    assert Placed(entries, items, i);
    if items[i].level > 1 {
      EntryLevels(entries, items, i - 1);
    }
  }

  lemma NearestIsAbove(entries: seq<Entry>, items: seq<Item>, k: nat, i: nat)
    requires FollowsOutline(entries, items) && Levels(items) && i < |items|
    ensures NearestAbove(entries, k, i) <==> Above(items, k, i)
  {
    forall j: nat | j < |items| ensures entries[j].level == ItemLevel(items, j) {
      EntryLevels(entries, items, j);
    }
  }

  /** An entry's parent is the nearest entry that is less deep. */
  lemma ParentIsNearest(entries: seq<Entry>, items: seq<Item>, k: nat, i: nat)
    requires FollowsOutline(entries, items) && Levels(items) && i < |items| && NearestAbove(entries, k, i)
    ensures entries[i].parentId == Some(entries[k].id)
  {
    assert Placed(entries, items, i);
    if items[i].level > 1 {
      var n: nat :| NearestAbove(entries, n, i) && entries[i].parentId == Some(entries[n].id);
      assert n == k;
    } else {
      EntryLevels(entries, items, k);
    }
  }

  lemma ParentsKeptIsItems(entries: seq<Entry>, items: seq<Item>)
    requires FollowsOutline(entries, items) && Levels(items)
    ensures ParentsKept(entries) <==> ItemsKeepParents(items)
  {
    forall k: nat, i: nat | i < |items| && k < |items|
      ensures NearestAbove(entries, k, i) <==> Above(items, k, i)
      ensures NearestAbove(entries, k, i) ==> entries[i].parentId == Some(entries[k].id)
      ensures Kept(entries[i]) <==> !Reserved(items[i].targetId)
    {
      NearestIsAbove(entries, items, k, i);
      if NearestAbove(entries, k, i) {
        ParentIsNearest(entries, items, k, i);
      }
      assert Placed(entries, items, i);
    }
    if ParentsKept(entries) {
      forall k: nat, i: nat | i < |items| && Above(items, k, i) && Reserved(items[k].targetId) ensures Reserved(items[i].targetId) {
        assert NearestAbove(entries, k, i);
      }
    }
    if ItemsKeepParents(items) {
      forall k: nat, i: nat | i < |entries| && NearestAbove(entries, k, i) && entries[i].parentId == Some(entries[k].id) && Kept(entries[i])
        ensures Kept(entries[k])
      {
        assert Above(items, k, i);
      }
    }
  }

  /** The outline so far, and one more section with its headings. */
  ghost predicate WithSection(before: seq<Item>, section: Item, headings: seq<Item>, all: seq<Item>) {
    && all == before + [section] + headings && section.level == 1 && !Reserved(section.targetId)
    && forall k :: 0 <= k < |headings| ==> headings[k].level > 1
  }

  lemma LevelBefore(before: seq<Item>, section: Item, headings: seq<Item>, all: seq<Item>, i: nat)
    requires WithSection(before, section, headings, all) && i < |before|
    ensures all[i] == before[i] && ItemLevel(all, i) == ItemLevel(before, i)
  {
    assert i > 0 ==> all[i - 1] == before[i - 1];
  }

  lemma LevelSection(before: seq<Item>, section: Item, headings: seq<Item>, all: seq<Item>)
    requires WithSection(before, section, headings, all)
    ensures all[|before|] == section && ItemLevel(all, |before|) == 1
  {
  }

  lemma LevelHeading(before: seq<Item>, section: Item, headings: seq<Item>, all: seq<Item>, p: nat)
    requires WithSection(before, section, headings, all) && |before| < p < |all|
    ensures all[p] == headings[p - |before| - 1] && ItemLevel(all, p) == Effective(headings, p - |before| - 1)
  {
    var k := p - |before| - 1;
    assert all[p] == headings[k];
    assert all[p - 1] == if k == 0 then section else headings[k - 1];
  }

  lemma AboveBefore(before: seq<Item>, section: Item, headings: seq<Item>, all: seq<Item>, k: nat, i: nat)
    requires WithSection(before, section, headings, all) && i < |before|
    ensures Above(all, k, i) <==> Above(before, k, i)
  {
    forall j: nat | j <= i ensures ItemLevel(all, j) == ItemLevel(before, j) {
      LevelBefore(before, section, headings, all, j);
    }
  }

  /** What is above a heading is in its own section, and nothing is above a section. */
  lemma AboveStays(before: seq<Item>, section: Item, headings: seq<Item>, all: seq<Item>, k: nat, i: nat)
    requires WithSection(before, section, headings, all) && |before| <= i < |all| && Above(all, k, i)
    ensures i > |before| && k >= |before|
  {
    LevelSection(before, section, headings, all);
  }

  lemma AboveIsUnder(before: seq<Item>, section: Item, headings: seq<Item>, all: seq<Item>, k: nat, i: nat)
    requires WithSection(before, section, headings, all) && |before| < k < i < |all|
    ensures Above(all, k, i) <==> Under(headings, k - |before| - 1, i - |before| - 1)
  {
    var d := |before| + 1;
    LevelHeading(before, section, headings, all, k);
    LevelHeading(before, section, headings, all, i);
    if Above(all, k, i) {
      forall m: nat | k - d < m < i - d ensures Effective(headings, m) == 3 {
        LevelHeading(before, section, headings, all, m + d);
        assert ItemLevel(all, m + d) >= ItemLevel(all, i);
      }
    }
    if Under(headings, k - d, i - d) {
      forall j: nat | k < j < i ensures ItemLevel(all, j) >= ItemLevel(all, i) {
        LevelHeading(before, section, headings, all, j);
        assert Effective(headings, j - d) == 3;
      }
    }
  }

  lemma KeepsParentsInAll(before: seq<Item>, section: Item, headings: seq<Item>, all: seq<Item>)
    requires WithSection(before, section, headings, all) && ItemsKeepParents(all)
    ensures ItemsKeepParents(before) && KeepsParents(headings)
  {
    forall k: nat, i: nat | i < |before| && Above(before, k, i) && Reserved(before[k].targetId) ensures Reserved(before[i].targetId) {
      AboveBefore(before, section, headings, all, k, i);
      LevelBefore(before, section, headings, all, k);
      LevelBefore(before, section, headings, all, i);
      assert Above(all, k, i);
    }
    forall j: nat, n: nat | Under(headings, j, n) && Reserved(headings[j].targetId) ensures Reserved(headings[n].targetId) {
      var k, i := |before| + 1 + j, |before| + 1 + n;
      AboveIsUnder(before, section, headings, all, k, i);
      LevelHeading(before, section, headings, all, k);
      LevelHeading(before, section, headings, all, i);
      assert Above(all, k, i);
    }
  }

  lemma AllKeepsParents(before: seq<Item>, section: Item, headings: seq<Item>, all: seq<Item>, k: nat, i: nat)
    requires WithSection(before, section, headings, all) && ItemsKeepParents(before) && KeepsParents(headings)
    requires i < |all| && Above(all, k, i) && Reserved(all[k].targetId)
    ensures Reserved(all[i].targetId)
  {
    if i < |before| {
      AboveBefore(before, section, headings, all, k, i);
      LevelBefore(before, section, headings, all, k);
      LevelBefore(before, section, headings, all, i);
    } else {
      AboveStays(before, section, headings, all, k, i);
      LevelSection(before, section, headings, all);
      AboveIsUnder(before, section, headings, all, k, i);
      LevelHeading(before, section, headings, all, k);
      LevelHeading(before, section, headings, all, i);
    }
  }

  lemma SectionMore(before: seq<Item>, section: Item, headings: seq<Item>, all: seq<Item>)
    requires WithSection(before, section, headings, all)
    ensures ItemsKeepParents(all) <==> ItemsKeepParents(before) && KeepsParents(headings)
  {
    if ItemsKeepParents(all) {
      KeepsParentsInAll(before, section, headings, all);
    }
    if ItemsKeepParents(before) && KeepsParents(headings) {
      forall k: nat, i: nat | i < |all| && Above(all, k, i) && Reserved(all[k].targetId) ensures Reserved(all[i].targetId) {
        AllKeepsParents(before, section, headings, all, k, i);
      }
    }
  }

  lemma {:induction false} HeadingsDeep(blocks: seq<Block>)
    ensures forall k :: 0 <= k < |Headings(blocks)| ==> Headings(blocks)[k].level > 1
    decreases |blocks|
  {
    if blocks != [] {
      HeadingsDeep(blocks[..|blocks| - 1]);
    }
  }

  lemma {:induction false} OutlineKeepsParents(sections: seq<Section>)
    ensures ItemsKeepParents(Outline(sections)) <==> SectionsKeepParents(sections)
    decreases |sections|
  {
    if sections != [] {
      var init, last := sections[..|sections| - 1], sections[|sections| - 1];
      OutlineKeepsParents(init);
      assert sections == init + [last];
      assert SectionsKeepParents(sections) <==>
             SectionsKeepParents(init) && (!Reserved(last.id) ==> KeepsParents(Headings(last.blocks))) by {
        SectionsMore(init, last);
      }
      if Reserved(last.id) {
        assert Outline(sections) == Outline(init) + [] == Outline(init);
      } else {
        HeadingsDeep(last.blocks);
        var item := Item(last.id, last.title, 1);
        assert Outline(sections) == Outline(init) + ([item] + Headings(last.blocks)) == Outline(init) + [item] + Headings(last.blocks);
        SectionMore(Outline(init), item, Headings(last.blocks), Outline(sections));
      }
    }
  }

  lemma SectionsMore(init: seq<Section>, last: Section)
    ensures SectionsKeepParents(init + [last]) <==>
            SectionsKeepParents(init) && (!Reserved(last.id) ==> KeepsParents(Headings(last.blocks)))
  {
    var all := init + [last];
    assert all[|init|] == last && forall i :: 0 <= i < |init| ==> all[i] == init[i];
    if SectionsKeepParents(all) {
      forall i | 0 <= i < |init| && !Reserved(init[i].id) ensures KeepsParents(Headings(init[i].blocks)) {
        assert all[i] == init[i];
      }
    }
  }

  /** Generated entries are accepted exactly when the kept lines of the outline point at different places, and in each section
      no third-level heading that is kept follows a second-level heading of a reserved name. */
  lemma GeneratedAcceptedIff(sections: seq<Section>, entries: seq<Entry>)
    requires FollowsOutline(entries, Outline(sections))
    ensures IsForest(Filtered(entries)) <==> DistinctTargets(Outline(sections)) && SectionsKeepParents(sections)
  {
    OutlineLevels(sections);
    AcceptedIffParentsKept(sections, entries);
    ParentsKeptIsItems(entries, Outline(sections));
    OutlineKeepsParents(sections);
  }

  /** Headings may not take a reserved id. */
  predicate NoReserved(items: seq<Item>) {
    forall i :: 0 <= i < |items| ==> !Reserved(items[i].targetId)
  }

  /** With distinct ids and no heading of a reserved name, nothing is dropped and nothing is refused. */
  lemma GeneratedIsForest(sections: seq<Section>, entries: seq<Entry>)
    requires FollowsOutline(entries, Outline(sections))
    requires DistinctTargets(Outline(sections)) && NoReserved(Outline(sections))
    ensures Filtered(entries) == entries && IsForest(entries)
  {
    forall i | 0 <= i < |entries| ensures Kept(entries[i]) {
      assert Placed(entries, Outline(sections), i);
    }
    FilteredAll(entries);
    AcceptedIffParentsKept(sections, entries);
  }

  /** A second-level heading called cover with a heading below it makes the whole contents list fail, in any document. */
  lemma ReservedHeadingRefused(sections: seq<Section>, entries: seq<Entry>, i: nat, k: nat)
    requires FollowsOutline(entries, Outline(sections)) && i < |sections| && !Reserved(sections[i].id)
    requires var h := Headings(sections[i].blocks);
             && k + 1 < |h| && Effective(h, k) == 2 && Effective(h, k + 1) == 3
             && h[k].targetId == "cover" && !Reserved(h[k + 1].targetId)
    ensures !IsForest(Filtered(entries))
  {
    GeneratedAcceptedIff(sections, entries);
  }
}
