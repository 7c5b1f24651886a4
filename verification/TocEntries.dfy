/** Table-of-contents entries: the validation walk along parent ids accepts exactly the forests. */
module TocEntries {
  import opened Basics

  datatype Entry = Entry(id: string, targetId: string, title: string, level: int, parentId: Option<string>)

  predicate Kept(e: Entry) {
    e.targetId != "cover" && e.targetId != "table-of-contents"
  }

  function Filtered(entries: seq<Entry>): seq<Entry> {
    if entries == [] then []
    else Filtered(entries[..|entries| - 1]) + (if Kept(entries[|entries| - 1]) then [entries[|entries| - 1]] else [])
  }

  ghost predicate UniqueIds(entries: seq<Entry>) {
    forall i, k :: 0 <= i < k < |entries| ==> entries[i].id != entries[k].id
  }

  type ParentMap = map<string, Option<string>>

  /** Later entries win, as in the constructor of a Map. */
  function Parents(entries: seq<Entry>): ParentMap {
    if entries == [] then map[]
    else Parents(entries[..|entries| - 1])[entries[|entries| - 1].id := entries[|entries| - 1].parentId]
  }

  ghost predicate ParentsExist(parents: ParentMap) {
    forall id :: id in parents && parents[id].Some? ==> parents[id].value in parents
  }

  /** A closed walk along parent ids. */
  ghost predicate Cycle(parents: ParentMap, path: seq<string>) {
    && path != []
    && (forall i :: 0 <= i < |path| ==> path[i] in parents)
    && (forall i :: 0 <= i < |path| - 1 ==> parents[path[i]] == Some(path[i + 1]))
    && parents[path[|path| - 1]] == Some(path[0])
  }

  ghost predicate Acyclic(parents: ParentMap) {
    forall path :: !Cycle(parents, path)
  }

  ghost predicate IsForest(entries: seq<Entry>) {
    UniqueIds(entries) && ParentsExist(Parents(entries)) && Acyclic(Parents(entries))
  }

  // ---------------------------------------------------------------- chains of ancestors

  /** A walk from an id along parent ids. */
  ghost predicate Walk(parents: ParentMap, id: string, chain: seq<string>) {
    && chain != [] && chain[0] == id
    && (forall i :: 0 <= i < |chain| ==> chain[i] in parents)
    && (forall i :: 0 <= i < |chain| - 1 ==> parents[chain[i]] == Some(chain[i + 1]))
  }

  /** A walk that ends at an entry without a parent. */
  ghost predicate RootChain(parents: ParentMap, id: string, chain: seq<string>) {
    Walk(parents, id, chain) && parents[chain[|chain| - 1]] == None
  }

  ghost predicate Rooted(parents: ParentMap, id: string) {
    exists chain :: RootChain(parents, id, chain)
  }

  lemma Suffix(parents: ParentMap, id: string, chain: seq<string>, i: nat)
    requires RootChain(parents, id, chain) && i < |chain|
    ensures RootChain(parents, chain[i], chain[i..])
  {
    var s := chain[i..];
    forall k | 0 <= k < |s| - 1 ensures parents[s[k]] == Some(s[k + 1]) {
      assert s[k] == chain[i + k];
      assert s[k + 1] == chain[i + k + 1];
    }
    assert s[|s| - 1] == chain[|chain| - 1];
  }

  lemma Onwards(parents: ParentMap, id: string, chain: seq<string>)
    requires RootChain(parents, id, chain)
    ensures |chain| == 1 <==> parents[id] == None
    ensures |chain| > 1 ==> parents[id] == Some(chain[1]) && RootChain(parents, chain[1], chain[1..])
  {
    if |chain| > 1 {
      assert parents[chain[0]] == Some(chain[1]);
      Suffix(parents, id, chain, 1);
    }
  }

  lemma {:induction false} ChainsAgree(parents: ParentMap, id: string, a: seq<string>, b: seq<string>)
    requires RootChain(parents, id, a) && RootChain(parents, id, b)
    ensures a == b
    decreases |a|
  {
    Onwards(parents, id, a);
    Onwards(parents, id, b);
    if |a| > 1 {
      ChainsAgree(parents, a[1], a[1..], b[1..]);
      assert a == [id] + a[1..] && b == [id] + b[1..];
    }
  }

  lemma ChainIsDistinct(parents: ParentMap, id: string, chain: seq<string>, i: nat, k: nat)
    requires RootChain(parents, id, chain) && i < k < |chain|
    ensures chain[i] != chain[k]
  {
    if chain[i] == chain[k] {
      Suffix(parents, id, chain, i);
      Suffix(parents, id, chain, k);
      ChainsAgree(parents, chain[i], chain[i..], chain[k..]);
      assert false;
    }
  }

  /** From an id on a cycle no walk ends at a root. */
  lemma {:induction false} CycleHasNoRoot(parents: ParentMap, path: seq<string>, at: nat, chain: seq<string>)
    requires Cycle(parents, path) && at < |path| && RootChain(parents, path[at], chain)
    ensures false
    decreases |chain|
  {
    Onwards(parents, path[at], chain);
    var next := if at + 1 < |path| then at + 1 else 0;
    assert parents[path[at]] == Some(path[next]);
    CycleHasNoRoot(parents, path, next, chain[1..]);
  }

  lemma RootedIsAcyclic(parents: ParentMap)
    requires forall id :: id in parents ==> Rooted(parents, id)
    ensures Acyclic(parents)
  {
    forall path | Cycle(parents, path) ensures false {
      assert Rooted(parents, path[0]);
      var chain :| RootChain(parents, path[0], chain);
      CycleHasNoRoot(parents, path, 0, chain);
    }
  }

  // ---------------------------------------------------------------- the validation

  predicate Listed(entries: seq<Entry>, id: string) {
    exists i :: 0 <= i < |entries| && entries[i].id == id
  }

  lemma {:induction false} ParentsOf(entries: seq<Entry>)
    ensures forall id :: id in Parents(entries) <==> Listed(entries, id)
    ensures forall i :: 0 <= i < |entries| ==>
              entries[i].id in Parents(entries) &&
              (UniqueIds(entries) ==> Parents(entries)[entries[i].id] == entries[i].parentId)
    decreases |entries|
  {
    if entries != [] {
      var init, last := entries[..|entries| - 1], entries[|entries| - 1];
      ParentsOf(init);
      forall id ensures Listed(entries, id) <==> id == last.id || Listed(init, id) {
        if Listed(init, id) {
          var i :| 0 <= i < |init| && init[i].id == id;
          assert entries[i].id == id;
        }
        if Listed(entries, id) && id != last.id {
          var i :| 0 <= i < |entries| && entries[i].id == id;
          assert init[i].id == id;
        }
      }
      if UniqueIds(entries) {
        assert UniqueIds(init);
        forall i | 0 <= i < |entries| ensures Parents(entries)[entries[i].id] == entries[i].parentId {
          if i < |init| {
            assert init[i] == entries[i] && entries[i].id != last.id;
          }
        }
      }
    }
  }

  /** The inner loop: follows parents from one entry until it runs out of them, or finds itself going round. */
  method WalkUp(start: string, parents: ParentMap) returns (cyclic: bool)
    requires start in parents
    ensures cyclic ==> exists path :: Cycle(parents, path)
    ensures !cyclic ==> Rooted(parents, start) || !ParentsExist(parents)
  {
    var seen, cursor := {start}, start;
    ghost var chain := [start];
    while parents[cursor].Some?
      invariant Walk(parents, start, chain) && cursor == chain[|chain| - 1]
      invariant forall x :: x in seen <==> x in chain
      invariant seen <= parents.Keys
      decreases parents.Keys - seen
    {
      var parent := parents[cursor].value;
      if parent !in parents {
        return false;
      }
      if parent in seen {
        ghost var i :| 0 <= i < |chain| && chain[i] == parent;
        ghost var path := chain[i..];
        forall k | 0 <= k < |path| - 1 ensures parents[path[k]] == Some(path[k + 1]) {
          assert path[k] == chain[i + k] && path[k + 1] == chain[i + k + 1];
        }
        assert path[|path| - 1] == cursor && path[0] == parent;
        assert Cycle(parents, path);
        return true;
      }
      seen := seen + {parent};
      chain := chain + [parent];
      cursor := parent;
    }
    assert RootChain(parents, start, chain);
    return false;
  }

  datatype Validation = Accepted(entries: seq<Entry>) | DuplicateIds | OrphanEntry | CyclicParents

  method HasDuplicates(entries: seq<Entry>) returns (duplicates: bool)
    ensures duplicates <==> !UniqueIds(entries)
  {
    var ids: set<string> := {};
    for i := 0 to |entries|
      invariant forall x :: x in ids <==> exists k :: 0 <= k < i && entries[k].id == x
      invariant UniqueIds(entries[..i])
    {
      if entries[i].id in ids {
        return true;
      }
      ids := ids + {entries[i].id};
    }
    assert entries[..|entries|] == entries;
    return false;
  }

  /** One entry passes: its parent is listed, and unless some parent is missing its walk upwards ends. */
  ghost predicate Passes(parents: ParentMap, id: string) {
    && id in parents
    && (parents[id].Some? ==> parents[id].value in parents)
    && (Rooted(parents, id) || !ParentsExist(parents))
  }

  lemma AllPass(entries: seq<Entry>, parents: ParentMap)
    requires parents == Parents(entries)
    requires forall k :: 0 <= k < |entries| ==> Passes(parents, entries[k].id)
    ensures ParentsExist(parents) && Acyclic(parents)
  {
    ParentsOf(entries);
    forall id | id in parents ensures Passes(parents, id) {
      assert Listed(entries, id);
    }
    assert ParentsExist(parents) by {
      forall id | id in parents && parents[id].Some? ensures parents[id].value in parents {
        assert Passes(parents, id);
      }
    }
    RootedIsAcyclic(parents);
  }

  lemma EntryInParents(entries: seq<Entry>, k: nat)
    requires UniqueIds(entries) && k < |entries|
    ensures entries[k].id in Parents(entries) && Parents(entries)[entries[k].id] == entries[k].parentId
  {
    ParentsOf(entries);
  }

  /** The second loop: every parent must be listed, and no walk upwards may go round. */
  method CheckParents(entries: seq<Entry>, parents: ParentMap) returns (r: Validation)
    requires UniqueIds(entries) && parents == Parents(entries)
    ensures r.Accepted? <==> ParentsExist(parents) && Acyclic(parents)
    ensures r.Accepted? ==> r.entries == entries
    ensures r.OrphanEntry? ==> !ParentsExist(parents)
    ensures r.CyclicParents? ==> !Acyclic(parents)
    ensures !r.DuplicateIds?
  {
    for i := 0 to |entries|
      invariant forall k :: 0 <= k < i ==> Passes(parents, entries[k].id)
    {
      var entry := entries[i];
      EntryInParents(entries, i);
      if entry.parentId.Some? && entry.parentId.value !in parents {
        return OrphanEntry;
      }
      var cyclic := WalkUp(entry.id, parents);
      if cyclic {
        return CyclicParents;
      }
    }
    AllPass(entries, parents);
    return Accepted(entries);
  }

  // ---------------------------------------------------------------- the same in terms of the entries themselves

  /** The list holds the entries at these positions, in their order. */
  ghost predicate PicksOut(entries: seq<Entry>, list: seq<Entry>, picks: seq<nat>) {
    && |picks| == |list| && (forall i :: 0 <= i < |list| ==> picks[i] < |entries| && list[i] == entries[picks[i]])
    && forall i, k :: 0 <= i < k < |picks| ==> picks[i] < picks[k]
  }

  /** All entries but those of the cover and of the contents list itself, in order. */
  ghost predicate Keeps(entries: seq<Entry>, kept: seq<Entry>) {
    exists picks :: PicksOut(entries, kept, picks)
      && forall j: nat :: j < |entries| ==> (j in picks <==> entries[j].targetId !in {"cover", "table-of-contents"})
  }

  lemma PicksMore(init: seq<Entry>, list: seq<Entry>, picks: seq<nat>, last: Entry)
    requires PicksOut(init, list, picks)
    ensures PicksOut(init + [last], list, picks) && PicksOut(init + [last], list + [last], picks + [|init|])
  {
  }

  lemma {:induction false} FilteredPicked(entries: seq<Entry>) returns (picks: seq<nat>)
    ensures PicksOut(entries, Filtered(entries), picks)
    ensures forall j: nat :: j < |entries| ==> (j in picks <==> entries[j].targetId !in {"cover", "table-of-contents"})
    decreases |entries|
  {
    picks := [];
    if entries != [] {
      var init, last := entries[..|entries| - 1], entries[|entries| - 1];
      picks := FilteredPicked(init);
      PicksMore(init, Filtered(init), picks, last);
      assert entries == init + [last];
      if Kept(last) {
        picks := picks + [|init|];
      } else {
        assert Filtered(init) + [] == Filtered(init);
      }
    }
  }

  /** Entries each of which names the next as its parent, and the last the first. */
  ghost predicate Ring(entries: seq<Entry>, ring: seq<Entry>) {
    && ring != [] && (forall i :: 0 <= i < |ring| ==> ring[i] in entries)
    && forall i :: 0 <= i < |ring| ==> ring[i].parentId == Some(ring[if i + 1 < |ring| then i + 1 else 0].id)
  }

  /** Different ids, every parent listed, and nobody their own ancestor. */
  ghost predicate OwnForest(entries: seq<Entry>) {
    && (forall i, k :: 0 <= i < k < |entries| ==> entries[i].id != entries[k].id)
    && (forall e :: e in entries && e.parentId != None ==> exists parent :: parent in entries && parent.id == e.parentId.value)
    && forall ring :: !Ring(entries, ring)
  }

  lemma ParentOf(entries: seq<Entry>, e: Entry)
    requires UniqueIds(entries) && e in entries
    ensures e.id in Parents(entries) && Parents(entries)[e.id] == e.parentId
  {
    var k :| 0 <= k < |entries| && entries[k] == e;
    EntryInParents(entries, k);
  }

  lemma ParentsListed(entries: seq<Entry>)
    requires UniqueIds(entries)
    ensures ParentsExist(Parents(entries)) <==>
      forall e :: e in entries && e.parentId != None ==> exists parent :: parent in entries && parent.id == e.parentId.value
  {
    var parents := Parents(entries);
    ParentsOf(entries);
    if ParentsExist(parents) {
      forall e | e in entries && e.parentId != None ensures exists parent :: parent in entries && parent.id == e.parentId.value {
        ParentOf(entries, e);
        assert Listed(entries, e.parentId.value);
        var k :| 0 <= k < |entries| && entries[k].id == e.parentId.value;
        assert entries[k] in entries;
      }
    }
    if forall e :: e in entries && e.parentId != None ==> exists parent :: parent in entries && parent.id == e.parentId.value {
      forall id | id in parents && parents[id].Some? ensures parents[id].value in parents {
        assert Listed(entries, id);
        var k :| 0 <= k < |entries| && entries[k].id == id;
        assert entries[k] in entries;
        var parent :| parent in entries && parent.id == entries[k].parentId.value;
        ParentOf(entries, parent);
      }
    }
  }

  function EntryOf(entries: seq<Entry>, id: string): (e: Entry)
    requires Listed(entries, id)
    ensures e in entries && e.id == id
  {
    if entries[0].id == id then entries[0] else EntryOf(entries[1..], id)
  }

  lemma RingOfCycle(entries: seq<Entry>, path: seq<string>)
    requires UniqueIds(entries) && Cycle(Parents(entries), path)
    ensures exists ring :: Ring(entries, ring)
  {
    ParentsOf(entries);
    var ring := seq(|path|, i requires 0 <= i < |path| => EntryOf(entries, path[i]));
    forall i | 0 <= i < |ring| ensures ring[i].parentId == Some(ring[if i + 1 < |ring| then i + 1 else 0].id) {
      ParentOf(entries, ring[i]);
      assert Parents(entries)[path[i]] == Some(path[if i + 1 < |path| then i + 1 else 0]);
    }
    assert Ring(entries, ring);
  }

  lemma CycleOfRing(entries: seq<Entry>, ring: seq<Entry>)
    requires UniqueIds(entries) && Ring(entries, ring)
    ensures exists path :: Cycle(Parents(entries), path)
  {
    var path := seq(|ring|, i requires 0 <= i < |ring| => ring[i].id);
    forall i | 0 <= i < |ring| ensures ring[i].id in Parents(entries) && Parents(entries)[ring[i].id] == ring[i].parentId {
      ParentOf(entries, ring[i]);
    }
    assert Cycle(Parents(entries), path);
  }

  lemma ForestIff(entries: seq<Entry>)
    ensures IsForest(entries) <==> OwnForest(entries)
  {
    if UniqueIds(entries) {
      ParentsListed(entries);
      forall path | Cycle(Parents(entries), path) ensures exists ring :: Ring(entries, ring) {
        RingOfCycle(entries, path);
      }
      forall ring | Ring(entries, ring) ensures exists path :: Cycle(Parents(entries), path) {
        CycleOfRing(entries, ring);
      }
    }
  }

  /** Accepts (and returns the kept entries) exactly when they form a forest: unique ids, existing parents, no cycle. */
  method ValidateTocEntries(entries: seq<Entry>) returns (r: Validation)
    ensures Keeps(entries, Filtered(entries))
    ensures r.Accepted? <==> OwnForest(Filtered(entries))
    ensures r.Accepted? <==> IsForest(Filtered(entries))
    ensures r.Accepted? ==> r.entries == Filtered(entries)
    ensures r.DuplicateIds? <==> !UniqueIds(Filtered(entries))
    ensures r.OrphanEntry? ==> !ParentsExist(Parents(Filtered(entries)))
    ensures r.CyclicParents? ==> !Acyclic(Parents(Filtered(entries)))
  {
    ghost var picks := FilteredPicked(entries);
    ForestIff(Filtered(entries));
    var filtered := Filtered(entries);
    var duplicates := HasDuplicates(filtered);
    if duplicates {
      return DuplicateIds;
    }
    r := CheckParents(filtered, Parents(filtered));
  }
}
