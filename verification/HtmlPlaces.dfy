/** Where an element stands in a document, and the proof that the traversal's list is the list of all places in order. */
module HtmlPlaces {
  import opened Basics
  import opened HtmlTree
  import opened HtmlValidator
  import opened HtmlSchema

  /** The number of a section, the position of a node among its elements, then positions among children, downwards. */
  type Place = seq<nat>

  function NodeIn(ns: seq<Node>, path: seq<nat>): Option<Node>
    decreases |path|
  {
    if path == [] || path[0] >= |ns| then None
    else if |path| == 1 then Some(ns[path[0]])
    else if ns[path[0]].Text? then None
    else NodeIn(ns[path[0]].children, path[1..])
  }

  function NodeAt(sections: seq<DocumentSection>, p: Place): Option<Node> {
    if p == [] || p[0] >= |sections| then None else NodeIn(sections[p[0]].elements, p[1..])
  }

  predicate ElementAt(sections: seq<DocumentSection>, p: Place) {
    NodeAt(sections, p).Some? && NodeAt(sections, p).value.Element?
  }

  /** An element of a section is at depth one and has no parent. */
  function ParentTag(sections: seq<DocumentSection>, p: Place): Option<Tag> {
    if |p| <= 2 || !ElementAt(sections, p[..|p| - 1]) then None else Some(NodeAt(sections, p[..|p| - 1]).value.tag)
  }

  predicate Precedes(p: Place, q: Place) {
    exists k :: 0 <= k < |p| && k < |q| && p[..k] == q[..k] && p[k] < q[k]
  }

  /** Level by level, and within a level in document order. */
  predicate Before(p: Place, q: Place) {
    |p| < |q| || (|p| == |q| && Precedes(p, q))
  }

  // ---------------------------------------------------------------- one step down

  lemma {:induction false} InChild(ns: seq<Node>, path: seq<nat>, k: nat)
    requires path != []
    ensures NodeIn(ns, path + [k])
         == (var up := NodeIn(ns, path);
             if up.Some? && up.value.Element? && k < |up.value.children| then Some(up.value.children[k]) else None)
    decreases |path|
  {
    var down := path + [k];
    assert down[1..] == path[1..] + [k];
    if |path| == 1 {
      if path[0] < |ns| && ns[path[0]].Element? {
        assert down[1..] == [k];
      }
    } else if path[0] < |ns| && ns[path[0]].Element? {
      InChild(ns[path[0]].children, path[1..], k);
    }
  }

  /** The nodes next to each other below a place: the elements of a section, or the children of an element. */
  function Below(sections: seq<DocumentSection>, p: Place): seq<Node> {
    if |p| == 1 && p[0] < |sections| then sections[p[0]].elements
    else if ElementAt(sections, p) then NodeAt(sections, p).value.children
    else []
  }

  lemma AtChild(sections: seq<DocumentSection>, p: Place, k: nat)
    requires p != []
    ensures NodeAt(sections, p + [k]) == if k < |Below(sections, p)| then Some(Below(sections, p)[k]) else None
  {
    assert (p + [k])[1..] == p[1..] + [k];
    if p[0] < |sections| {
      if |p| == 1 {
        assert (p + [k])[1..] == [k];
      } else {
        InChild(sections[p[0]].elements, p[1..], k);
      }
    }
  }

  lemma OwnParent(sections: seq<DocumentSection>, p: Place)
    requires ElementAt(sections, p)
    ensures |p| >= 2 && (|p| > 2 ==> ElementAt(sections, p[..|p| - 1]))
  {
    if |p| >= 2 {
      AtChild(sections, p[..|p| - 1], p[|p| - 1]);
      assert p == p[..|p| - 1] + [p[|p| - 1]];
    }
  }

  lemma {:induction false} NoneDeeper(sections: seq<DocumentSection>, p: Place, d: nat)
    requires ElementAt(sections, p) && 2 <= d <= |p|
    ensures ElementAt(sections, p[..d])
    decreases |p|
  {
    if d < |p| {
      OwnParent(sections, p);
      NoneDeeper(sections, p[..|p| - 1], d);
      assert p[..|p| - 1][..d] == p[..d];
    } else {
      assert p[..d] == p;
    }
  }

  // ---------------------------------------------------------------- a list of items and the list of their places

  ghost predicate Matches(sections: seq<DocumentSection>, item: Item, p: Place) {
    && NodeAt(sections, p) == Some(item.node) && item.node.Element?
    && item.depth + 1 == |p| && item.parent == ParentTag(sections, p)
  }

  ghost predicate Located(sections: seq<DocumentSection>, items: seq<Item>, places: seq<Place>) {
    && |items| == |places|
    && (forall i :: 0 <= i < |items| ==> Matches(sections, items[i], places[i]))
    && (forall i, k :: 0 <= i < k < |places| ==> Before(places[i], places[k]))
  }

  lemma LocatedAppend(sections: seq<DocumentSection>, a: seq<Item>, p: seq<Place>, b: seq<Item>, q: seq<Place>)
    requires Located(sections, a, p) && Located(sections, b, q)
    requires forall x, y :: x in p && y in q ==> Before(x, y)
    ensures Located(sections, a + b, p + q)
  {
    hide Matches, Before;
  }

  /** The elements next to each other from position k on. */
  lemma {:induction false} SiblingsLocated(sections: seq<DocumentSection>, up: Place, k: nat, depth: nat, parent: Option<Tag>)
    returns (places: seq<Place>)
    requires up != [] && k <= |Below(sections, up)| && depth == |up|
    requires parent == if |up| == 1 then None else if ElementAt(sections, up) then Some(NodeAt(sections, up).value.tag) else None
    ensures Located(sections, ItemsOf(Below(sections, up)[k..], depth, parent), places)
    ensures forall p :: p in places <==> |p| == |up| + 1 && p[..|up|] == up && p[|up|] >= k && ElementAt(sections, p)
    decreases |Below(sections, up)| - k
  {
    hide NodeAt, Below;
    var nodes := Below(sections, up);
    if k == |nodes| {
      places := [];
      forall p | |p| == |up| + 1 && p[..|up|] == up && p[|up|] >= k ensures !ElementAt(sections, p) {
        AtChild(sections, up, p[|up|]);
        assert p == up + [p[|up|]];
      }
    } else {
      var rest := SiblingsLocated(sections, up, k + 1, depth, parent);
      var here := up + [k];
      AtChild(sections, up, k);
      assert nodes[k..][1..] == nodes[k + 1..] && nodes[k..][0] == nodes[k];
      if nodes[k].Element? {
        var item := Item(nodes[k], depth, parent);
        assert here[..|here| - 1] == up;
        assert Matches(sections, item, here);
        forall q | q in rest ensures Before(here, q) {
          assert here[..|up|] == q[..|up|];
        }
        assert Located(sections, [item], [here]);
        LocatedAppend(sections, [item], [here], ItemsOf(nodes[k + 1..], depth, parent), rest);
        places := [here] + rest;
      } else {
        places := rest;
      }
      forall p ensures p in places <==> |p| == |up| + 1 && p[..|up|] == up && p[|up|] >= k && ElementAt(sections, p) {
        if |p| == |up| + 1 && p[..|up|] == up && p[|up|] == k {
          assert p == here;
        }
      }
    }
  }

  /** The elements at the top of the sections from number s on. */
  lemma {:induction false} RootsLocated(sections: seq<DocumentSection>, s: nat) returns (places: seq<Place>)
    requires s <= |sections|
    ensures Located(sections, RootItems(sections[s..]), places)
    ensures forall p :: p in places <==> |p| == 2 && p[0] >= s && ElementAt(sections, p)
    decreases |sections| - s
  {
    hide NodeAt, Matches;
    if s == |sections| {
      places := [];
      forall p | |p| == 2 && p[0] >= s ensures !ElementAt(sections, p) {
        NoSection(sections, p);
      }
    } else {
      var rest := RootsLocated(sections, s + 1);
      var first := SiblingsLocated(sections, [s], 0, 1, None);
      assert sections[s..][1..] == sections[s + 1..] && Below(sections, [s])[0..] == sections[s].elements;
      forall p: Place | |p| == 2 ensures p[..1] == [s] <==> p[0] == s {
      }
      forall p, q | p in first && q in rest ensures Before(p, q) {
        assert p[..0] == q[..0] && p[..1] == [s];
      }
      LocatedAppend(sections, ItemsOf(sections[s].elements, 1, None), first, RootItems(sections[s + 1..]), rest);
      places := first + rest;
    }
  }

  lemma NoSection(sections: seq<DocumentSection>, p: Place)
    requires p != [] && p[0] >= |sections|
    ensures !ElementAt(sections, p)
  {
  }

  /** The places of the level below, and where each of them comes from. */
  lemma {:induction false} ChildrenLocated(sections: seq<DocumentSection>, level: seq<Item>, places: seq<Place>, d: nat)
    returns (below: seq<Place>)
    requires Located(sections, level, places) && AllElements(level) && d >= 2
    requires forall p :: p in places ==> |p| == d
    ensures Located(sections, Children(level), below)
    ensures forall p :: p in below <==> |p| == d + 1 && p[..d] in places && ElementAt(sections, p)
    decreases |level|
  {
    hide NodeAt, ElementAt, Matches, Before, ItemsOf;
    if level == [] {
      below := [];
    } else {
      var item, up := level[0], places[0];
      assert Matches(sections, item, up);
      OwnBelow(sections, item, up);
      var first := SiblingsLocated(sections, up, 0, |up|, Some(item.node.tag));
      assert Below(sections, up)[0..] == item.node.children;
      var rest := ChildrenLocated(sections, level[1..], places[1..], d);
      FirstComeFirst(places, first, rest, d);
      LocatedAppend(sections, ChildItems(item), first, Children(level[1..]), rest);
      below := first + rest;
      assert places == [up] + places[1..];
    }
  }

  lemma FirstComeFirst(places: seq<Place>, first: seq<Place>, rest: seq<Place>, d: nat)
    requires places != [] && forall i, k :: 0 <= i < k < |places| ==> Before(places[i], places[k])
    requires forall p :: p in places ==> |p| == d
    requires forall p :: p in first ==> |p| == d + 1 && p[..d] == places[0]
    requires forall p :: p in rest ==> |p| == d + 1 && p[..d] in places[1..]
    ensures forall p, q :: p in first && q in rest ==> Before(p, q)
  {
    hide Before;
    forall p, q | p in first && q in rest ensures Before(p, q) {
      FirstBefore(places, q[..d]);
      Deeper(places[0], q[..d], p, q);
    }
  }

  lemma OwnBelow(sections: seq<DocumentSection>, item: Item, p: Place)
    requires Matches(sections, item, p)
    ensures ElementAt(sections, p) && |p| >= 2 && Below(sections, p) == item.node.children
    ensures item.depth + 1 == |p| && NodeAt(sections, p).value.tag == item.node.tag
  {
  }

  lemma FirstBefore(places: seq<Place>, q: Place)
    requires places != [] && q in places[1..] && forall i, k :: 0 <= i < k < |places| ==> Before(places[i], places[k])
    ensures Before(places[0], q)
  {
    hide Before;
    var i :| 0 <= i < |places[1..]| && places[1..][i] == q;
    assert places[i + 1] == q;
  }

  lemma Deeper(up: Place, over: Place, p: Place, q: Place)
    requires |up| == |over| && Before(up, over) && |p| == |q| == |up| + 1 && p[..|up|] == up && q[..|up|] == over
    ensures Before(p, q)
  {
    var k :| 0 <= k < |up| && up[..k] == over[..k] && up[k] < over[k];
    assert p[..k] == up[..k] && q[..k] == over[..k];
  }

  /** Every element from depth d on, level by level: each once, with its place, in order. */
  ghost predicate AllFrom(sections: seq<DocumentSection>, items: seq<Item>, places: seq<Place>, d: nat) {
    && Located(sections, items, places)
    && forall p :: p in places <==> |p| >= d && ElementAt(sections, p)
  }

  lemma {:induction false} LevelsLocated(sections: seq<DocumentSection>, level: seq<Item>, places: seq<Place>, d: nat)
    returns (all: seq<Place>)
    requires AllElements(level) && d >= 2 && Located(sections, level, places)
    requires forall p :: p in places <==> |p| == d && ElementAt(sections, p)
    ensures AllFrom(sections, LevelOrder(level), all, d)
    decreases Weight(level)
  {
    hide NodeAt, Matches;
    if level == [] {
      all := [];
      forall p | |p| >= d ensures !ElementAt(sections, p) {
        if ElementAt(sections, p) {
          NoneDeeper(sections, p, d);
        }
      }
    } else {
      ChildrenAreSmaller(level);
      var below := ChildrenLocated(sections, level, places, d);
      forall p ensures p in below <==> |p| == d + 1 && ElementAt(sections, p) {
        if |p| == d + 1 && ElementAt(sections, p) {
          NoneDeeper(sections, p, d);
        }
      }
      var rest := LevelsLocated(sections, Children(level), below, d + 1);
      LocatedAppend(sections, level, places, LevelOrder(Children(level)), rest);
      all := places + rest;
    }
  }

  /** The list that the traversal works off holds every element of the document once, level by level. */
  lemma DocumentLocated(sections: seq<DocumentSection>) returns (all: seq<Place>)
    ensures AllElements(RootItems(sections))
    ensures AllFrom(sections, LevelOrder(RootItems(sections)), all, 2)
    ensures forall p :: p in all <==> ElementAt(sections, p)
  {
    RootsAreElements(sections);
    var roots := RootsLocated(sections, 0);
    assert sections[0..] == sections;
    all := LevelsLocated(sections, RootItems(sections), roots, 2);
    forall p | ElementAt(sections, p) ensures |p| >= 2 {
      OwnParent(sections, p);
    }
  }
}
