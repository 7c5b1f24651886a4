/**
 * The table of contents as a forest: two loops over shared mutable nodes build it, and it holds every entry exactly once,
 * each under its own parent, siblings in input order.
 */
module TocTree {
  import opened Basics
  import opened TocEntries

  class TocTreeNode {
    const entry: Entry
    var children: seq<TocTreeNode>

    constructor (entry: Entry)
      ensures this.entry == entry && children == []
    {
      this.entry := entry;
      children := [];
    }
  }

  type NodeMap = map<string, TocTreeNode>

  // ---------------------------------------------------------------- what the loops build

  function Children(entries: seq<Entry>, parentId: Option<string>): seq<Entry> {
    if entries == [] then []
    else
      Children(entries[..|entries| - 1], parentId) +
      (if entries[|entries| - 1].parentId == parentId then [entries[|entries| - 1]] else [])
  }

  /** The children of an entry, or of none: all entries that name it as their parent, in input order. */
  lemma {:induction false} ChildrenPicked(entries: seq<Entry>, parentId: Option<string>) returns (picks: seq<nat>)
    ensures PicksOut(entries, Children(entries, parentId), picks)
    ensures forall j: nat :: j < |entries| ==> (j in picks <==> entries[j].parentId == parentId)
    decreases |entries|
  {
    picks := [];
    if entries != [] {
      var init, last := entries[..|entries| - 1], entries[|entries| - 1];
      picks := ChildrenPicked(init, parentId);
      PicksMore(init, Children(init, parentId), picks, last);
      assert entries == init + [last];
      if last.parentId == parentId {
        picks := picks + [|init|];
      } else {
        assert Children(init, parentId) + [] == Children(init, parentId);
      }
    }
  }

  /** The nodes the ids name, in the order of the list. */
  predicate AreNodesOf(byId: NodeMap, list: seq<Entry>, nodes: seq<TocTreeNode>) {
    && |nodes| == |list|
    && forall i :: 0 <= i < |list| ==> list[i].id in byId && nodes[i] == byId[list[i].id]
  }

  /** One node per id, no two ids sharing one. */
  predicate OneNodeEach(byId: NodeMap) {
    forall a, b :: a in byId && b in byId && byId[a] == byId[b] ==> a == b
  }

  /** After the entries in `done`, every node holds the children seen so far. */
  ghost predicate Linked(byId: NodeMap, done: seq<Entry>)
    reads byId.Values
  {
    forall id :: id in byId ==> AreNodesOf(byId, Children(done, Some(id)), byId[id].children)
  }

  /** The map names exactly the listed ids, and with unique ids each node carries the entry of its id. */
  ghost predicate Covers(byId: NodeMap, entries: seq<Entry>) {
    && OneNodeEach(byId)
    && (forall id :: id in byId <==> Listed(entries, id))
    && (UniqueIds(entries) ==>
          forall i :: 0 <= i < |entries| ==> entries[i].id in byId && byId[entries[i].id].entry == entries[i])
  }

  /** Adding the node of one more entry; an entry with a known id replaces the earlier one. */
  lemma CoversMore(byId: NodeMap, entries: seq<Entry>, i: nat, node: TocTreeNode)
    requires i < |entries| && Covers(byId, entries[..i]) && node !in byId.Values && node.entry == entries[i]
    ensures Covers(byId[entries[i].id := node], entries[..i + 1])
  {
    var before, after := entries[..i], entries[..i + 1];
    var more := byId[entries[i].id := node];
    assert after == before + [entries[i]];
    forall id ensures id in more <==> Listed(after, id) {
      if Listed(before, id) {
        var k :| 0 <= k < |before| && before[k].id == id;
        assert after[k].id == id;
      }
      assert after[i].id == entries[i].id;
      if Listed(after, id) && id != entries[i].id {
        var k :| 0 <= k < |after| && after[k].id == id;
        assert before[k].id == id;
      }
    }
    if UniqueIds(after) {
      assert UniqueIds(before);
      forall k | 0 <= k < |after| ensures after[k].id in more && more[after[k].id].entry == after[k] {
        if k < i {
          assert before[k] == after[k] && after[k].id != after[i].id;
        }
      }
    }
  }

  /** The first loop: allocates one childless node per id. */
  method CreateNodes(entries: seq<Entry>) returns (byId: NodeMap)
    ensures Covers(byId, entries)
    ensures forall id :: id in byId ==> fresh(byId[id]) && byId[id].children == []
  {
    byId := map[];
    for i := 0 to |entries|
      invariant Covers(byId, entries[..i])
      invariant forall id :: id in byId ==> fresh(byId[id]) && byId[id].children == []
    {
      var node := new TocTreeNode(entries[i]);
      CoversMore(byId, entries, i, node);
      byId := byId[entries[i].id := node];
    }
    assert entries[..|entries|] == entries;
  }

  lemma ChildrenOfMore(done: seq<Entry>, entry: Entry, parentId: Option<string>)
    ensures Children(done + [entry], parentId) ==
            Children(done, parentId) + (if entry.parentId == parentId then [entry] else [])
  {
    assert (done + [entry])[..|done|] == done;
  }

  /** Pushes the entry's node onto the children of its parent's node. */
  method Attach(byId: NodeMap, done: seq<Entry>, entry: Entry)
    requires OneNodeEach(byId) && Linked(byId, done)
    requires entry.id in byId && entry.parentId.Some? && entry.parentId.value in byId
    modifies byId.Values
    ensures Linked(byId, done + [entry])
  {
    var parent := byId[entry.parentId.value];
    parent.children := parent.children + [byId[entry.id]];
    forall id | id in byId ensures AreNodesOf(byId, Children(done + [entry], Some(id)), byId[id].children) {
      ChildrenOfMore(done, entry, Some(id));
      assert id != entry.parentId.value ==> byId[id] != parent;
    }
  }

  /** A root changes no node's children and goes to the end of the roots. */
  lemma RootPasses(byId: NodeMap, done: seq<Entry>, entry: Entry, top: seq<TocTreeNode>)
    requires Linked(byId, done) && entry.parentId == None && entry.id in byId
    requires AreNodesOf(byId, Children(done, None), top)
    ensures Linked(byId, done + [entry])
    ensures AreNodesOf(byId, Children(done + [entry], None), top + [byId[entry.id]])
  {
    forall id | id in byId ensures AreNodesOf(byId, Children(done + [entry], Some(id)), byId[id].children) {
      ChildrenOfMore(done, entry, Some(id));
    }
    ChildrenOfMore(done, entry, None);
  }

  lemma StartsLinked(byId: NodeMap)
    requires forall id :: id in byId ==> byId[id].children == []
    ensures Linked(byId, [])
  {
  }

  /** One round of the second loop: the node goes to the roots or under its parent, unless the parent is missing. */
  method Place(byId: NodeMap, done: seq<Entry>, entry: Entry, top: seq<TocTreeNode>) returns (roots: Option<seq<TocTreeNode>>)
    requires OneNodeEach(byId) && Linked(byId, done) && AreNodesOf(byId, Children(done, None), top) && entry.id in byId
    modifies byId.Values
    ensures roots.Some? <==> (entry.parentId.Some? ==> entry.parentId.value in byId)
    ensures roots.Some? ==>
              Linked(byId, done + [entry]) && AreNodesOf(byId, Children(done + [entry], None), roots.value)
  {
    if entry.parentId == None {
      RootPasses(byId, done, entry, top);
      return Some(top + [byId[entry.id]]);
    }
    if entry.parentId.value !in byId {
      return None;
    }
    ChildrenOfMore(done, entry, None);
    Attach(byId, done, entry);
    return Some(top);
  }

  predicate ParentsKnown(byId: NodeMap, entries: seq<Entry>) {
    forall i :: 0 <= i < |entries| && entries[i].parentId.Some? ==> entries[i].parentId.value in byId
  }

  lemma ParentsKnownMore(byId: NodeMap, entries: seq<Entry>, i: nat)
    requires i < |entries|
    ensures entries[..i + 1] == entries[..i] + [entries[i]]
    ensures ParentsKnown(byId, entries[..i + 1]) <==>
            ParentsKnown(byId, entries[..i]) && (entries[i].parentId.Some? ==> entries[i].parentId.value in byId)
    ensures ParentsKnown(byId, entries) ==> ParentsKnown(byId, entries[..i + 1])
  {
    var more := entries[..i + 1];
    assert more[i] == entries[i] && forall k :: 0 <= k < i ==> more[k] == entries[..i][k];
  }

  /** The second loop: hangs every node under its parent, or reports that a parent is missing. */
  method PlaceAll(byId: NodeMap, entries: seq<Entry>) returns (roots: Option<seq<TocTreeNode>>)
    requires OneNodeEach(byId) && Linked(byId, [])
    requires forall i :: 0 <= i < |entries| ==> entries[i].id in byId
    modifies byId.Values
    ensures roots.Some? <==> ParentsKnown(byId, entries)
    ensures roots.Some? ==> Linked(byId, entries) && AreNodesOf(byId, Children(entries, None), roots.value)
  {
    roots := Some([]);
    for i := 0 to |entries|
      invariant roots.Some? && Linked(byId, entries[..i]) && AreNodesOf(byId, Children(entries[..i], None), roots.value)
      invariant ParentsKnown(byId, entries[..i])
    {
      ParentsKnownMore(byId, entries, i);
      roots := Place(byId, entries[..i], entries[i], roots.value);
      if roots.None? {
        return;
      }
    }
    assert entries[..|entries|] == entries;
  }

  lemma EntriesCovered(byId: NodeMap, entries: seq<Entry>)
    requires Covers(byId, entries)
    ensures forall i :: 0 <= i < |entries| ==> entries[i].id in byId
  {
    forall i | 0 <= i < |entries| ensures entries[i].id in byId {
      assert Listed(entries, entries[i].id);
    }
  }

  /** The two loops: nodes for all entries, and links between them. */
  method BuildTocTree(entries: seq<Entry>) returns (roots: Option<seq<TocTreeNode>>, ghost byId: NodeMap)
    ensures Covers(byId, entries) && forall id :: id in byId ==> fresh(byId[id])
    ensures roots.Some? <==> ParentsKnown(byId, entries)
    ensures roots.Some? ==> Linked(byId, entries) && AreNodesOf(byId, Children(entries, None), roots.value)
  {
    var nodes := CreateNodes(entries);
    byId := nodes;
    StartsLinked(nodes);
    EntriesCovered(nodes, entries);
    roots := PlaceAll(nodes, entries);
  }
}
