/** The built nodes are a forest: every entry hangs in it exactly once, below its own parent. */
module TocForest {
  import opened Basics
  import opened TocEntries
  import opened TocTree

  datatype Tree = Tree(entry: Entry, subtrees: seq<Tree>)

  // ---------------------------------------------------------------- the forest of the entries

  ghost function ChainOf(parents: ParentMap, id: string): (chain: seq<string>)
    requires Rooted(parents, id)
    ensures RootChain(parents, id, chain)
  {
    var chain :| RootChain(parents, id, chain); chain
  }

  /** All entries have a chain of ancestors up to a root. */
  ghost predicate AllRooted(parents: ParentMap) {
    forall id :: id in parents ==> Rooted(parents, id)
  }

  function Elements(s: seq<string>): set<string> {
    set x | x in s
  }

  lemma {:induction false} DistinctLength(s: seq<string>)
    requires forall i, k :: 0 <= i < k < |s| ==> s[i] != s[k]
    ensures |Elements(s)| == |s|
  {
    if s != [] {
      DistinctLength(s[1..]);
      assert Elements(s) == {s[0]} + Elements(s[1..]);
    }
  }

  /** Ancestors are distinct entries, so a chain is no longer than the list. */
  lemma ChainFits(parents: ParentMap, id: string, chain: seq<string>)
    requires RootChain(parents, id, chain)
    ensures |chain| <= |parents|
  {
    forall i, k | 0 <= i < k < |chain| ensures chain[i] != chain[k] {
      ChainIsDistinct(parents, id, chain, i, k);
    }
    DistinctLength(chain);
    Subset(Elements(chain), parents.Keys);
  }

  lemma {:induction false} Subset(a: set<string>, b: set<string>)
    requires a <= b
    ensures |a| <= |b|
    decreases |a|
  {
    if x :| x in a {
      Subset(a - {x}, b - {x});
    }
  }

  lemma ChildChain(parents: ParentMap, id: string, parent: string)
    requires AllRooted(parents) && id in parents && parents[id] == Some(parent)
    ensures Rooted(parents, parent)
    ensures ChainOf(parents, id) == [id] + ChainOf(parents, parent)
  {
    var chain := ChainOf(parents, id);
    Onwards(parents, id, chain);
    assert parent == chain[1];
    ChainsAgree(parents, parent, chain[1..], ChainOf(parents, parent));
    assert chain == [id] + chain[1..];
  }

  ghost predicate Known(parents: ParentMap, parentId: Option<string>) {
    parentId.Some? ==> parentId.value in parents
  }

  /** How many more generations can follow below an entry, or at the top. */
  ghost function Room(parents: ParentMap, parentId: Option<string>): nat
    requires AllRooted(parents) && Known(parents, parentId)
  {
    if parentId == None then |parents|
    else
      ChainFits(parents, parentId.value, ChainOf(parents, parentId.value));
      |parents| - |ChainOf(parents, parentId.value)|
  }

  lemma LessRoom(parents: ParentMap, id: string)
    requires AllRooted(parents) && id in parents
    ensures Known(parents, parents[id]) && Room(parents, Some(id)) == Room(parents, parents[id]) - 1
  {
    Onwards(parents, id, ChainOf(parents, id));
    if parents[id].Some? {
      assert ChainOf(parents, id)[1] in parents;
      ChildChain(parents, id, parents[id].value);
    }
  }

  /** The children lists name entries of the map that really have that parent. */
  ghost predicate Below(parents: ParentMap, list: seq<Entry>, parentId: Option<string>) {
    forall i :: 0 <= i < |list| ==> list[i].id in parents && parents[list[i].id] == parentId
  }

  ghost predicate Consistent(parents: ParentMap, entries: seq<Entry>) {
    AllRooted(parents) && forall p :: Below(parents, Children(entries, p), p)
  }

  ghost function TreesOf(parents: ParentMap, entries: seq<Entry>, parentId: Option<string>, list: seq<Entry>): seq<Tree>
    requires Consistent(parents, entries) && Known(parents, parentId) && Below(parents, list, parentId)
    decreases Room(parents, parentId), |list|
  {
    if list == [] then []
    else
      LessRoom(parents, list[0].id);
      var subtrees := TreesOf(parents, entries, Some(list[0].id), Children(entries, Some(list[0].id)));
      [Tree(list[0], subtrees)] + TreesOf(parents, entries, parentId, list[1..])
  }

  lemma TreesUnfold(parents: ParentMap, entries: seq<Entry>, parentId: Option<string>, list: seq<Entry>)
    requires Consistent(parents, entries) && Known(parents, parentId) && Below(parents, list, parentId) && list != []
    ensures TreesOf(parents, entries, parentId, list) ==
            [Tree(list[0], TreesOf(parents, entries, Some(list[0].id), Children(entries, Some(list[0].id))))] +
            TreesOf(parents, entries, parentId, list[1..])
  {
  }

  // ---------------------------------------------------------------- every entry once

  function Bag(forest: seq<Tree>): multiset<Entry> {
    if forest == [] then multiset{}
    else multiset{forest[0].entry} + Bag(forest[0].subtrees) + Bag(forest[1..])
  }

  function InChain(list: seq<Entry>, chain: seq<string>): nat {
    if list == [] then 0 else (if list[0].id in chain then 1 else 0) + InChain(list[1..], chain)
  }

  lemma {:induction false} InChainAppend(list: seq<Entry>, last: Entry, chain: seq<string>)
    ensures InChain(list + [last], chain) == InChain(list, chain) + (if last.id in chain then 1 else 0)
  {
    if list != [] {
      InChainAppend(list[1..], last, chain);
      assert (list + [last])[1..] == list[1..] + [last];
    }
  }

  /** If exactly the entry `who` has this parent and lies on the chain, the children on the chain are that one. */
  lemma {:induction false} OneOnChain(entries: seq<Entry>, parentId: Option<string>, chain: seq<string>, who: Option<string>)
    requires UniqueIds(entries)
    requires forall k :: 0 <= k < |entries| ==>
               (entries[k].parentId == parentId && entries[k].id in chain <==> who == Some(entries[k].id))
    ensures InChain(Children(entries, parentId), chain) == (if who.Some? && Listed(entries, who.value) then 1 else 0)
    decreases |entries|
  {
    if entries != [] {
      var init, last := entries[..|entries| - 1], entries[|entries| - 1];
      OneOnChain(init, parentId, chain, who);
      assert last.parentId == parentId && last.id in chain <==> who == Some(last.id);
      if last.parentId == parentId {
        InChainAppend(Children(init, parentId), last, chain);
      } else {
        assert Children(init, parentId) + [] == Children(init, parentId);
      }
      if who.Some? {
        if Listed(init, who.value) {
          var k :| 0 <= k < |init| && init[k].id == who.value;
          assert entries[k].id == who.value && last.id != who.value;
        } else if Listed(entries, who.value) {
          assert forall j :: 0 <= j < |init| ==> init[j] == entries[j];
        }
      }
    }
  }

  ghost predicate FromEntries(parents: ParentMap, entries: seq<Entry>) {
    && UniqueIds(entries) && parents == Parents(entries) && Consistent(parents, entries)
  }

  /** Along a chain, an element's parent is the next element, and no other element has that parent. */
  lemma NextOnChain(parents: ParentMap, id: string, chain: seq<string>, x: string, m: nat)
    requires RootChain(parents, id, chain) && x in chain && m < |chain|
    ensures parents[x] == None <==> x == chain[|chain| - 1]
    ensures parents[x] == Some(chain[m]) <==> m > 0 && x == chain[m - 1]
    ensures parents[x].Some? ==> exists k :: 0 < k < |chain| && chain[k] == parents[x].value
  {
    var j :| 0 <= j < |chain| && chain[j] == x;
    if j < |chain| - 1 {
      ChainIsDistinct(parents, id, chain, j, |chain| - 1);
      assert parents[chain[j]] == Some(chain[j + 1]);
      if chain[j + 1] == chain[m] && j + 1 != m {
        ChainIsDistinct(parents, id, chain, if j + 1 < m then j + 1 else m, if j + 1 < m then m else j + 1);
      }
    }
    if m > 0 {
      assert parents[chain[m - 1]] == Some(chain[m]);
    }
  }

  /** The element of the chain whose parent is `parentId`. */
  lemma WhoIsBelow(parents: ParentMap, id: string, chain: seq<string>, parentId: Option<string>) returns (who: Option<string>)
    requires RootChain(parents, id, chain)
    ensures who.Some? <==> parentId == None || (parentId.value in chain && parentId.value != id)
    ensures who.Some? ==> who.value in chain
    ensures forall x :: x in parents ==> (parents[x] == parentId && x in chain <==> who == Some(x))
  {
    if parentId == None {
      who := Some(chain[|chain| - 1]);
      forall x | x in parents && x in chain ensures parents[x] == parentId <==> who == Some(x) {
        NextOnChain(parents, id, chain, x, 0);
      }
    } else if m: nat :| 0 < m < |chain| && chain[m] == parentId.value {
      who := Some(chain[m - 1]);
      ChainIsDistinct(parents, id, chain, 0, m);
      forall x | x in parents && x in chain ensures parents[x] == parentId <==> who == Some(x) {
        NextOnChain(parents, id, chain, x, m);
      }
    } else {
      who := None;
      forall x | x in parents && x in chain ensures parents[x] != parentId {
        NextOnChain(parents, id, chain, x, 0);
      }
    }
  }

  /** On the chain of an entry there is one element just below `parentId`, unless that is the entry itself or not on it. */
  lemma OnePerGeneration(parents: ParentMap, entries: seq<Entry>, e: Entry, parentId: Option<string>)
    requires FromEntries(parents, entries) && e in entries && e.id in parents
    ensures InChain(Children(entries, parentId), ChainOf(parents, e.id)) ==
            (if parentId == None || (parentId.value in ChainOf(parents, e.id) && parentId.value != e.id) then 1 else 0)
  {
    var chain := ChainOf(parents, e.id);
    var who := WhoIsBelow(parents, e.id, chain, parentId);
    ParentsOf(entries);
    OneOnChain(entries, parentId, chain, who);
  }

  /** In the trees of a list, an entry occurs once if the list holds one of its ancestors (or itself), and else never. */
  lemma {:induction false} CountInTrees(parents: ParentMap, entries: seq<Entry>, parentId: Option<string>, list: seq<Entry>, e: Entry)
    requires FromEntries(parents, entries) && Known(parents, parentId) && Below(parents, list, parentId)
    requires e in entries && e.id in parents && forall i :: 0 <= i < |list| ==> list[i] in entries
    ensures Bag(TreesOf(parents, entries, parentId, list))[e] == InChain(list, ChainOf(parents, e.id))
    decreases Room(parents, parentId), |list|
  {
    if list != [] {
      var x := list[0];
      LessRoom(parents, x.id);
      ChildrenFrom(entries, Some(x.id));
      CountInTrees(parents, entries, Some(x.id), Children(entries, Some(x.id)), e);
      BelowTail(parents, list, parentId);
      CountInTrees(parents, entries, parentId, list[1..], e);
      CountStep(parents, entries, parentId, list, e);
    }
  }

  lemma CountStep(parents: ParentMap, entries: seq<Entry>, parentId: Option<string>, list: seq<Entry>, e: Entry)
    requires FromEntries(parents, entries) && Known(parents, parentId) && Below(parents, list, parentId)
    requires e in entries && e.id in parents && list != [] && list[0] in entries
    requires Bag(TreesOf(parents, entries, Some(list[0].id), Children(entries, Some(list[0].id))))[e] ==
             InChain(Children(entries, Some(list[0].id)), ChainOf(parents, e.id))
    requires Bag(TreesOf(parents, entries, parentId, list[1..]))[e] == InChain(list[1..], ChainOf(parents, e.id))
    ensures Bag(TreesOf(parents, entries, parentId, list))[e] == InChain(list, ChainOf(parents, e.id))
  {
    TreesCons(parents, entries, parentId, list);
    CountHere(parents, entries, list[0], e);
  }

  lemma BelowTail(parents: ParentMap, list: seq<Entry>, parentId: Option<string>)
    requires Below(parents, list, parentId) && list != []
    ensures Below(parents, list[1..], parentId)
    ensures list[0].id in parents && parents[list[0].id] == parentId
  {
  }

  lemma TreesCons(parents: ParentMap, entries: seq<Entry>, parentId: Option<string>, list: seq<Entry>)
    requires Consistent(parents, entries) && Known(parents, parentId) && Below(parents, list, parentId) && list != []
    ensures Bag(TreesOf(parents, entries, parentId, list)) ==
            multiset{list[0]} + Bag(TreesOf(parents, entries, Some(list[0].id), Children(entries, Some(list[0].id)))) +
            Bag(TreesOf(parents, entries, parentId, list[1..]))
  {
    TreesUnfold(parents, entries, parentId, list);
    BagCons(list[0], TreesOf(parents, entries, Some(list[0].id), Children(entries, Some(list[0].id))),
            TreesOf(parents, entries, parentId, list[1..]));
  }

  lemma BagCons(entry: Entry, subtrees: seq<Tree>, rest: seq<Tree>)
    ensures Bag([Tree(entry, subtrees)] + rest) == multiset{entry} + Bag(subtrees) + Bag(rest)
  {
    assert ([Tree(entry, subtrees)] + rest)[1..] == rest;
  }

  lemma CountHere(parents: ParentMap, entries: seq<Entry>, x: Entry, e: Entry)
    requires FromEntries(parents, entries) && e in entries && e.id in parents && x in entries
    ensures multiset{x}[e] + InChain(Children(entries, Some(x.id)), ChainOf(parents, e.id)) ==
            (if x.id in ChainOf(parents, e.id) then 1 else 0)
  {
    OnePerGeneration(parents, entries, e, Some(x.id));
    assert ChainOf(parents, e.id)[0] == e.id;
    if x.id == e.id {
      SameId(entries, x, e);
    }
  }

  lemma SameId(entries: seq<Entry>, a: Entry, b: Entry)
    requires UniqueIds(entries) && a in entries && b in entries && a.id == b.id
    ensures a == b
  {
    var i :| 0 <= i < |entries| && entries[i] == a;
    var k :| 0 <= k < |entries| && entries[k] == b;
    assert entries[i].id == entries[k].id;
  }

  lemma {:induction false} ChildrenFrom(entries: seq<Entry>, parentId: Option<string>)
    ensures forall x :: x in Children(entries, parentId) <==> x in entries && x.parentId == parentId
    decreases |entries|
  {
    if entries != [] {
      ChildrenFrom(entries[..|entries| - 1], parentId);
      assert entries == entries[..|entries| - 1] + [entries[|entries| - 1]];
    }
  }

  /** In a finite map without orphans, a walk that cannot go round reaches a root. */
  lemma {:induction false} ReachesRoot(parents: ParentMap, id: string, chain: seq<string>)
    requires ParentsExist(parents) && Acyclic(parents) && Walk(parents, id, chain)
    requires forall i, k :: 0 <= i < k < |chain| ==> chain[i] != chain[k]
    ensures Rooted(parents, id)
    decreases |parents| - |chain|
  {
    DistinctLength(chain);
    Subset(Elements(chain), parents.Keys);
    var last := chain[|chain| - 1];
    if parents[last] == None {
      assert RootChain(parents, id, chain);
    } else if i :| 0 <= i < |chain| && Some(chain[i]) == parents[last] {
      ClosesCycle(parents, id, chain, i);
    } else {
      var longer := chain + [parents[last].value];
      DistinctLength(longer);
      Subset(Elements(longer), parents.Keys);
      ReachesRoot(parents, id, longer);
    }
  }

  lemma ClosesCycle(parents: ParentMap, id: string, chain: seq<string>, i: nat)
    requires Walk(parents, id, chain) && i < |chain| && parents[chain[|chain| - 1]] == Some(chain[i])
    ensures Cycle(parents, chain[i..])
  {
    var path := chain[i..];
    forall k | 0 <= k < |path| - 1 ensures parents[path[k]] == Some(path[k + 1]) {
      assert path[k] == chain[i + k] && path[k + 1] == chain[i + k + 1];
    }
    assert path[|path| - 1] == chain[|chain| - 1];
  }

  lemma ForestIsConsistent(entries: seq<Entry>)
    requires IsForest(entries)
    ensures FromEntries(Parents(entries), entries)
  {
    var parents := Parents(entries);
    forall id | id in parents ensures Rooted(parents, id) {
      ReachesRoot(parents, id, [id]);
    }
    forall p ensures Below(parents, Children(entries, p), p) {
      ChildrenFrom(entries, p);
      ParentsOf(entries);
      forall i | 0 <= i < |Children(entries, p)|
        ensures Children(entries, p)[i].id in parents && parents[Children(entries, p)[i].id] == p
      {
        assert Children(entries, p)[i] in Children(entries, p);
      }
    }
  }

  ghost function Forest(entries: seq<Entry>): seq<Tree>
    requires IsForest(entries)
  {
    ForestIsConsistent(entries);
    TreesOf(Parents(entries), entries, None, Children(entries, None))
  }

  lemma {:induction false} OnlyEntries(parents: ParentMap, entries: seq<Entry>, parentId: Option<string>, list: seq<Entry>)
    requires FromEntries(parents, entries) && Known(parents, parentId) && Below(parents, list, parentId)
    requires forall i :: 0 <= i < |list| ==> list[i] in entries
    ensures forall e :: e in Bag(TreesOf(parents, entries, parentId, list)) ==> e in entries
    decreases Room(parents, parentId), |list|
  {
    if list != [] {
      var x := list[0];
      LessRoom(parents, x.id);
      ChildrenFrom(entries, Some(x.id));
      OnlyEntries(parents, entries, Some(x.id), Children(entries, Some(x.id)));
      BelowTail(parents, list, parentId);
      OnlyEntries(parents, entries, parentId, list[1..]);
      TreesCons(parents, entries, parentId, list);
    }
  }

  lemma {:induction false} OnceEach(entries: seq<Entry>, e: Entry)
    requires UniqueIds(entries)
    ensures multiset(entries)[e] == (if e in entries then 1 else 0)
    decreases |entries|
  {
    if entries != [] {
      var init, last := entries[..|entries| - 1], entries[|entries| - 1];
      OnceEach(init, e);
      assert entries == init + [last];
      assert e == last ==> e !in init;
    }
  }

  /** Whatever the input order, the forest holds exactly the entries, each once. */
  lemma ForestHoldsEachOnce(entries: seq<Entry>)
    requires IsForest(entries)
    ensures Bag(Forest(entries)) == multiset(entries)
  {
    var parents := Parents(entries);
    ForestIsConsistent(entries);
    ChildrenFrom(entries, None);
    ParentsOf(entries);
    forall e ensures Bag(Forest(entries))[e] == multiset(entries)[e] {
      OnceEach(entries, e);
      OnlyEntries(parents, entries, None, Children(entries, None));
      if e in entries {
        CountInTrees(parents, entries, None, Children(entries, None), e);
        OnePerGeneration(parents, entries, e, None);
      }
    }
  }

  // ---------------------------------------------------------------- the nodes show the forest

  function Roots(forest: seq<Tree>): seq<Entry> {
    if forest == [] then [] else [forest[0].entry] + Roots(forest[1..])
  }

  /** Below each entry, and at the top, hang exactly its children, in input order. */
  predicate WellPlaced(entries: seq<Entry>, parentId: Option<string>, forest: seq<Tree>) {
    && Roots(forest) == Children(entries, parentId)
    && AllWellPlaced(entries, forest)
  }

  predicate AllWellPlaced(entries: seq<Entry>, forest: seq<Tree>) {
    forest != [] ==>
      && Roots(forest[0].subtrees) == Children(entries, Some(forest[0].entry.id))
      && AllWellPlaced(entries, forest[0].subtrees)
      && AllWellPlaced(entries, forest[1..])
  }

  lemma PlacedCons(entries: seq<Entry>, entry: Entry, subtrees: seq<Tree>, rest: seq<Tree>)
    requires Roots(subtrees) == Children(entries, Some(entry.id)) && AllWellPlaced(entries, subtrees)
    requires AllWellPlaced(entries, rest)
    ensures Roots([Tree(entry, subtrees)] + rest) == [entry] + Roots(rest)
    ensures AllWellPlaced(entries, [Tree(entry, subtrees)] + rest)
  {
    assert ([Tree(entry, subtrees)] + rest)[1..] == rest;
  }

  lemma {:induction false} TreesWellPlaced(parents: ParentMap, entries: seq<Entry>, parentId: Option<string>, list: seq<Entry>)
    requires Consistent(parents, entries) && Known(parents, parentId) && Below(parents, list, parentId)
    ensures Roots(TreesOf(parents, entries, parentId, list)) == list
    ensures AllWellPlaced(entries, TreesOf(parents, entries, parentId, list))
    decreases Room(parents, parentId), |list|
  {
    hide AllRooted, Rooted, Room;
    if list != [] {
      var x := list[0];
      LessRoom(parents, x.id);
      TreesWellPlaced(parents, entries, Some(x.id), Children(entries, Some(x.id)));
      BelowTail(parents, list, parentId);
      TreesWellPlaced(parents, entries, parentId, list[1..]);
      TreesUnfold(parents, entries, parentId, list);
      PlacedCons(entries, x, TreesOf(parents, entries, Some(x.id), Children(entries, Some(x.id))),
                 TreesOf(parents, entries, parentId, list[1..]));
      assert [x] + list[1..] == list;
    }
  }

  /** The heap nodes show the trees: same entries, and children that show the subtrees. */
  ghost predicate Shows(heap: set<TocTreeNode>, nodes: seq<TocTreeNode>, forest: seq<Tree>)
    reads heap
    decreases forest
  {
    && |nodes| == |forest|
    && (forest != [] ==>
          && nodes[0] in heap
          && nodes[0].entry == forest[0].entry
          && Shows(heap, nodes[0].children, forest[0].subtrees)
          && Shows(heap, nodes[1..], forest[1..]))
  }

  lemma {:induction false} NodesShowTrees(byId: NodeMap, parents: ParentMap, entries: seq<Entry>, parentId: Option<string>,
                                          list: seq<Entry>, nodes: seq<TocTreeNode>)
    requires FromEntries(parents, entries) && Known(parents, parentId) && Below(parents, list, parentId)
    requires Covers(byId, entries) && Linked(byId, entries) && AreNodesOf(byId, list, nodes)
    requires forall i :: 0 <= i < |list| ==> list[i] in entries
    ensures Shows(byId.Values, nodes, TreesOf(parents, entries, parentId, list))
    decreases Room(parents, parentId), |list|
  {
    if list != [] {
      var x := list[0];
      LessRoom(parents, x.id);
      ChildrenFrom(entries, Some(x.id));
      FirstNode(byId, entries, list, nodes);
      NodesShowTrees(byId, parents, entries, Some(x.id), Children(entries, Some(x.id)), nodes[0].children);
      BelowTail(parents, list, parentId);
      NodesShowTrees(byId, parents, entries, parentId, list[1..], nodes[1..]);
      TreesUnfold(parents, entries, parentId, list);
      ShowsMore(byId.Values, nodes, x, TreesOf(parents, entries, Some(x.id), Children(entries, Some(x.id))),
                TreesOf(parents, entries, parentId, list[1..]));
    }
  }

  lemma ShowsMore(heap: set<TocTreeNode>, nodes: seq<TocTreeNode>, entry: Entry, subtrees: seq<Tree>, rest: seq<Tree>)
    requires nodes != [] && nodes[0] in heap && nodes[0].entry == entry
    requires Shows(heap, nodes[0].children, subtrees) && Shows(heap, nodes[1..], rest)
    ensures Shows(heap, nodes, [Tree(entry, subtrees)] + rest)
  {
    assert ([Tree(entry, subtrees)] + rest)[1..] == rest;
  }

  lemma FirstNode(byId: NodeMap, entries: seq<Entry>, list: seq<Entry>, nodes: seq<TocTreeNode>)
    requires Covers(byId, entries) && UniqueIds(entries) && AreNodesOf(byId, list, nodes) && list != [] && list[0] in entries
    ensures nodes != [] && nodes[0] in byId.Values && nodes[0] == byId[list[0].id] && nodes[0].entry == list[0]
    ensures AreNodesOf(byId, list[1..], nodes[1..])
  {
    var k :| 0 <= k < |entries| && entries[k] == list[0];
    assert entries[k].id in byId;
  }

  /** Validation and tree building together: either a reason to refuse, or nodes that show the forest of the kept entries. */
  method ComposeToc(entries: seq<Entry>)
    returns (checked: Validation, roots: seq<TocTreeNode>, ghost heap: set<TocTreeNode>, ghost forest: seq<Tree>)
    ensures checked.Accepted? <==> IsForest(Filtered(entries))
    ensures checked.Accepted? ==> Shows(heap, roots, forest)
    ensures checked.Accepted? ==> WellPlaced(Filtered(entries), None, forest)
    ensures checked.Accepted? ==> Bag(forest) == multiset(Filtered(entries))
  {
    checked := ValidateTocEntries(entries);
    roots, heap, forest := [], {}, [];
    if checked.Accepted? {
      var kept := checked.entries;
      ghost var byId;
      var built: Option<seq<TocTreeNode>>;
      built, byId := BuildTocTree(kept);
      ParentsOf(kept);
      assert built.Some?;
      roots, heap, forest := built.value, byId.Values, Forest(kept);
      ForestIsConsistent(kept);
      ChildrenFrom(kept, None);
      NodesShowTrees(byId, Parents(kept), kept, None, Children(kept, None), roots);
      TreesWellPlaced(Parents(kept), kept, None, Children(kept, None));
      ForestHoldsEachOnce(kept);
    }
  }
}
