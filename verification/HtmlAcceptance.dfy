/** What an accepted document is, said place by place: no queue, no sum and no order of visiting in it but that of headings. */
module HtmlAcceptance {
  import opened Basics
  import opened HtmlTree
  import opened HtmlValidator
  import opened HtmlSchema
  import opened HtmlPlaces

  // ---------------------------------------------------------------- the rules

  ghost predicate Mentions(text: string, part: string) {
    exists before: string, after: string :: text == before + part + after
  }

  ghost predicate AttributesAllowed(tag: Tag, a: Attributes) {
    && (a.href != None || a.referenceId != None || a.citationId != None || a.footnoteId != None ==> tag == A)
    && (a.src != None || a.alt != None || a.loading != None || a.decoding != None ==> tag == Img)
    && (a.scope != None ==> tag == Th)
    && (a.colspan != None || a.rowspan != None ==> tag in {Td, Th})
    && (a.publicationBlock != None ==> tag == Aside)
    && (a.target == Some("_blank") ==>
          a.rel != None && Mentions(a.rel.value, "noopener") && Mentions(a.rel.value, "noreferrer"))
  }

  predicate LinkAllowed(href: string, policy: UrlPolicy) {
    if "#" <= href then policy.internalHref(href) else policy.externalUrl(href)
  }

  /** Lists hold items, tables hold heads and bodies, those hold rows, and rows hold cells. */
  predicate ParentAllowed(tag: Tag, parent: Option<Tag>) {
    && (tag == Li ==> parent in {Some(Ol), Some(Ul)})
    && (tag in {Thead, Tbody} ==> parent == Some(Table))
    && (tag == Tr ==> parent in {Some(Thead), Some(Tbody)})
    && (tag in {Td, Th} ==> parent == Some(Tr))
  }

  /** The rules for one element at its place; depth counts from one at the top of a section. */
  ghost predicate ElementAllowed(doc: Document, policy: UrlPolicy, p: Place)
    requires ElementAt(doc.sections, p)
  {
    var n := NodeAt(doc.sections, p).value;
    var tag, a := n.tag, n.attributes;
    && |p| - 1 <= 16 && |n.children| <= 180
    && (n.kind.Image? ==> n.kind.assetId in doc.assetIds)
    && AttributesAllowed(tag, a)
    && (tag in {Hr, Img} ==> n.children == [])
    && (tag == Img ==> a.alt != None && a.src != None && policy.assetUrl(a.src.value))
    && (tag == A && a.href != None ==> LinkAllowed(a.href.value, policy))
    && ParentAllowed(tag, ParentTag(doc.sections, p))
  }

  ghost predicate HasId(sections: seq<DocumentSection>, p: Place, id: string) {
    ElementAt(sections, p) && NodeAt(sections, p).value.id == Some(id)
  }

  ghost predicate LinksTo(sections: seq<DocumentSection>, p: Place, target: string) {
    ElementAt(sections, p) && NodeAt(sections, p).value.tag == A && NodeAt(sections, p).value.attributes.href == Some("#" + target)
  }

  ghost predicate MainAt(sections: seq<DocumentSection>, p: Place) {
    ElementAt(sections, p) && NodeAt(sections, p).value.tag == Main
  }

  ghost predicate HeadingAt(sections: seq<DocumentSection>, p: Place) {
    ElementAt(sections, p) && NodeAt(sections, p).value.kind.Heading?
  }

  function LevelAt(sections: seq<DocumentSection>, p: Place): int
    requires HeadingAt(sections, p)
  {
    NodeAt(sections, p).value.kind.level
  }

  ghost predicate NextHeading(sections: seq<DocumentSection>, p: Place, q: Place) {
    && HeadingAt(sections, p) && HeadingAt(sections, q) && Before(p, q)
    && forall r :: HeadingAt(sections, r) ==> !(Before(p, r) && Before(r, q))
  }

  ghost predicate FirstHeading(sections: seq<DocumentSection>, q: Place) {
    HeadingAt(sections, q) && forall p :: HeadingAt(sections, p) ==> !Before(p, q)
  }

  /** The first heading, level by level, is of level one; every other is at most one below the heading before it. */
  ghost predicate HeadingsAllowed(sections: seq<DocumentSection>) {
    && (forall q :: FirstHeading(sections, q) ==> LevelAt(sections, q) == 1)
    && forall p, q :: NextHeading(sections, p, q) ==> LevelAt(sections, q) <= LevelAt(sections, p) + 1
  }

  ghost predicate LandmarksAllowed(landmarks: seq<Landmark>, sections: seq<DocumentSection>) {
    && (forall i :: 0 <= i < |landmarks| ==>
          && (exists s :: 0 <= s < |sections| && sections[s].id == landmarks[i].sectionId)
          && (landmarks[i].labelText == None ==> forall k :: 0 <= k < |landmarks| && k != i ==> landmarks[k].role != landmarks[i].role))
    && exists i :: 0 <= i < |landmarks| && landmarks[i].role == "main"
         && forall k :: 0 <= k < |landmarks| && landmarks[k].role == "main" ==> k == i
  }

  ghost predicate SomeElements(sections: seq<DocumentSection>, places: seq<Place>) {
    && (forall i :: 0 <= i < |places| ==> ElementAt(sections, places[i]))
    && forall i, k :: 0 <= i < k < |places| ==> places[i] != places[k]
  }

  ghost predicate ElementsAllowed(doc: Document, policy: UrlPolicy) {
    && (forall places :: SomeElements(doc.sections, places) ==> |places| <= 2400)
    && forall p :: ElementAt(doc.sections, p) ==> ElementAllowed(doc, policy, p)
  }

  ghost predicate IdsAllowed(doc: Document) {
    && (forall p, q, id :: HasId(doc.sections, p, id) && HasId(doc.sections, q, id) ==> p == q)
    && (exists p :: HasId(doc.sections, p, doc.skipTarget))
    && forall p, target :: LinksTo(doc.sections, p, target) ==> exists q :: HasId(doc.sections, q, target)
  }

  ghost predicate MainAllowed(sections: seq<DocumentSection>) {
    exists p :: MainAt(sections, p) && NodeAt(sections, p).value.children != [] && forall q :: MainAt(sections, q) ==> q == p
  }

  ghost predicate Acceptable(doc: Document, policy: UrlPolicy) {
    && (forall i :: 0 <= i < |doc.assetUris| ==> policy.assetUrl(doc.assetUris[i]))
    && (forall i, k :: 0 <= i < k < |doc.sections| ==> doc.sections[i].id != doc.sections[k].id)
    && LandmarksAllowed(doc.landmarks, doc.sections)
    && ElementsAllowed(doc, policy) && IdsAllowed(doc) && MainAllowed(doc.sections) && HeadingsAllowed(doc.sections)
  }

  // ---------------------------------------------------------------- one element

  lemma ContainsIff(text: string, part: string)
    ensures Contains(text, part) <==> Mentions(text, part)
  {
    if Contains(text, part) {
      var i :| 0 <= i <= |text| - |part| && OccursAt(text, part, i);
      assert text == text[..i] + part + text[i + |part|..];
    }
    if Mentions(text, part) {
      var before: string, after: string :| text == before + part + after;
      assert text[|before|..|before| + |part|] == part;
      assert OccursAt(text, part, |before|);
    }
  }

  lemma AttributesIff(tag: Tag, a: Attributes)
    ensures AttributesApply(tag, a) <==> AttributesAllowed(tag, a)
  {
    hide Contains, Mentions;
    if a.rel.Some? {
      ContainsIff(a.rel.value, "noopener");
      ContainsIff(a.rel.value, "noreferrer");
    }
  }

  lemma ElementIff(doc: Document, policy: UrlPolicy, item: Item, p: Place)
    requires Matches(doc.sections, item, p)
    ensures ElementAt(doc.sections, p) && (ElementOk(item, doc.assetIds, policy) <==> ElementAllowed(doc, policy, p))
  {
    hide NodeAt, ParentTag, AttributesApply, AttributesAllowed;
    AttributesIff(item.node.tag, item.node.attributes);
    if item.node.attributes.href.Some? {
      var href := item.node.attributes.href.value;
      assert IsInternal(href) <==> "#" <= href;
    }
  }

  // ---------------------------------------------------------------- what the sums say

  lemma SumSplits(order: seq<Item>, assetIds: set<string>, policy: UrlPolicy)
    requires AllElements(order) && order != []
    ensures var one, init, last := Contribution(assetIds, policy), order[..|order| - 1], order[|order| - 1];
      && order == init + [last] && AllElements(init) && last.node.Element?
      && SumOf(order, one) == Join(SumOf(init, one), one(last))
  {
  }

  ghost predicate AllOk(order: seq<Item>, assetIds: set<string>, policy: UrlPolicy)
    requires AllElements(order)
  {
    forall i :: 0 <= i < |order| ==> ElementOk(order[i], assetIds, policy)
  }

  lemma {:induction false} SumOk(order: seq<Item>, assetIds: set<string>, policy: UrlPolicy)
    requires AllElements(order)
    ensures SumOf(order, Contribution(assetIds, policy)).allOk <==> AllOk(order, assetIds, policy)
  {
    hide ElementOk, TargetOf, Contribution;
    if order != [] {
      var init, last := order[..|order| - 1], order[|order| - 1];
      SumOk(init, assetIds, policy);
      SumSplits(order, assetIds, policy);
      ContributionParts(last, assetIds, policy);
      assert AllOk(order, assetIds, policy) <==> AllOk(init, assetIds, policy) && ElementOk(last, assetIds, policy);
    }
  }

  ghost predicate IdOf(item: Item, id: string) {
    item.node.Element? && item.node.id == Some(id)
  }

  ghost predicate SomeId(order: seq<Item>, id: string) {
    exists i :: 0 <= i < |order| && IdOf(order[i], id)
  }

  ghost predicate NoIdTwice(order: seq<Item>) {
    forall i, k, id :: 0 <= i < k < |order| && IdOf(order[i], id) ==> !IdOf(order[k], id)
  }

  lemma MoreIds(init: seq<Item>, last: Item, id: string)
    ensures SomeId(init + [last], id) <==> SomeId(init, id) || IdOf(last, id)
  {
    var order := init + [last];
    if SomeId(init, id) {
      var i :| 0 <= i < |init| && IdOf(init[i], id);
      assert IdOf(order[i], id);
    }
    assert order[|init|] == last;
  }

  lemma MoreUnique(init: seq<Item>, last: Item)
    ensures NoIdTwice(init + [last]) <==> NoIdTwice(init) && forall id :: IdOf(last, id) ==> !SomeId(init, id)
  {
    var order := init + [last];
    assert order[|init|] == last;
    if NoIdTwice(order) {
      forall i, k, id | 0 <= i < k < |init| && IdOf(init[i], id) ensures !IdOf(init[k], id) {
        assert IdOf(order[i], id) && order[k] == init[k];
      }
      forall i, id | 0 <= i < |init| && IdOf(last, id) ensures !IdOf(init[i], id) {
        assert order[i] == init[i];
      }
    }
    if NoIdTwice(init) && forall id :: IdOf(last, id) ==> !SomeId(init, id) {
      forall i, k, id | 0 <= i < k < |order| && IdOf(order[i], id) ensures !IdOf(order[k], id) {
        assert IdOf(init[i], id);
      }
    }
  }

  lemma NoIds()
    ensures Unique(multiset{}) && NoIdTwice([]) && forall id :: !SomeId([], id)
  {
  }

  lemma {:induction false} SumIds(order: seq<Item>, assetIds: set<string>, policy: UrlPolicy)
    requires AllElements(order)
    ensures forall id :: id in SumOf(order, Contribution(assetIds, policy)).ids <==> SomeId(order, id)
    ensures Unique(SumOf(order, Contribution(assetIds, policy)).ids) <==> NoIdTwice(order)
  {
    hide ElementOk, TargetOf, Contribution, SomeId, NoIdTwice, Unique;
    NoIds();
    if order != [] {
      var one, init, last := Contribution(assetIds, policy), order[..|order| - 1], order[|order| - 1];
      SumIds(init, assetIds, policy);
      SumSplits(order, assetIds, policy);
      ContributionParts(last, assetIds, policy);
      MoreUnique(init, last);
      forall id ensures SomeId(order, id) <==> SomeId(init, id) || IdOf(last, id) {
        MoreIds(init, last, id);
      }
      var ids, before := SumOf(order, one).ids, SumOf(init, one).ids;
      if last.node.id.Some? {
        assert ids == before + multiset{last.node.id.value};
        UniqueWithOne(before, last.node.id.value);
      } else {
        assert ids == before + multiset{} == before;
      }
    }
  }

  ghost predicate MainOf(item: Item) {
    item.node.Element? && item.node.tag.Main?
  }

  ghost predicate FullMainOf(item: Item) {
    MainOf(item) && |item.node.children| > 0
  }

  ghost predicate OneMain(order: seq<Item>) {
    exists i :: 0 <= i < |order| && MainOf(order[i]) && forall k :: 0 <= k < |order| && MainOf(order[k]) ==> k == i
  }

  ghost predicate NoMain(order: seq<Item>) {
    forall i :: 0 <= i < |order| ==> !MainOf(order[i])
  }

  ghost predicate SomeFullMain(order: seq<Item>) {
    exists i :: 0 <= i < |order| && FullMainOf(order[i])
  }

  lemma MoreMains(init: seq<Item>, last: Item)
    ensures NoMain(init + [last]) <==> NoMain(init) && !MainOf(last)
    ensures SomeFullMain(init + [last]) <==> SomeFullMain(init) || FullMainOf(last)
  {
    hide MainOf, FullMainOf;
    var order := init + [last];
    assert order[|init|] == last && forall i :: 0 <= i < |init| ==> order[i] == init[i];
    if SomeFullMain(init) {
      var i :| 0 <= i < |init| && FullMainOf(init[i]);
      assert FullMainOf(order[i]);
    }
  }

  lemma MoreThanOneMain(init: seq<Item>, last: Item)
    ensures OneMain(init + [last]) <==> if MainOf(last) then NoMain(init) else OneMain(init)
  {
    hide MainOf;
    var order := init + [last];
    assert order[|init|] == last && forall i :: 0 <= i < |init| ==> order[i] == init[i];
    if MainOf(last) {
      if NoMain(init) {
        assert forall k :: 0 <= k < |order| && MainOf(order[k]) ==> k == |init|;
      }
      if OneMain(order) {
        var i :| 0 <= i < |order| && MainOf(order[i]) && forall k :: 0 <= k < |order| && MainOf(order[k]) ==> k == i;
        assert i == |init|;
      }
    } else {
      if OneMain(init) {
        var i :| 0 <= i < |init| && MainOf(init[i]) && forall k :: 0 <= k < |init| && MainOf(init[k]) ==> k == i;
        assert forall k :: 0 <= k < |order| && MainOf(order[k]) ==> k == i;
      }
      if OneMain(order) {
        var i :| 0 <= i < |order| && MainOf(order[i]) && forall k :: 0 <= k < |order| && MainOf(order[k]) ==> k == i;
        assert forall k :: 0 <= k < |init| && MainOf(init[k]) ==> k == i;
      }
    }
  }

  lemma {:induction false} SumMains(order: seq<Item>, assetIds: set<string>, policy: UrlPolicy)
    requires AllElements(order)
    ensures var sum := SumOf(order, Contribution(assetIds, policy));
      (sum.mains == 0 <==> NoMain(order)) && (sum.mains == 1 <==> OneMain(order)) && (sum.fullMains > 0 <==> SomeFullMain(order))
  {
    hide ElementOk, TargetOf, Contribution;
    if order != [] {
      hide NoMain, OneMain, SomeFullMain;
      var init, last := order[..|order| - 1], order[|order| - 1];
      SumMains(init, assetIds, policy);
      SumSplits(order, assetIds, policy);
      ContributionParts(last, assetIds, policy);
      MoreMains(init, last);
      MoreThanOneMain(init, last);
    }
  }

  ghost predicate SomeTarget(order: seq<Item>, target: string, policy: UrlPolicy)
    requires AllElements(order)
  {
    exists i :: 0 <= i < |order| && target in TargetOf(order[i].node, policy)
  }

  lemma MoreTargets(init: seq<Item>, last: Item, target: string, policy: UrlPolicy)
    requires AllElements(init) && last.node.Element?
    ensures AllElements(init + [last])
    ensures SomeTarget(init + [last], target, policy) <==> SomeTarget(init, target, policy) || target in TargetOf(last.node, policy)
  {
    hide TargetOf;
    var order := init + [last];
    assert order[|init|] == last && forall i :: 0 <= i < |init| ==> order[i] == init[i];
    if SomeTarget(init, target, policy) {
      var i :| 0 <= i < |init| && target in TargetOf(init[i].node, policy);
      assert target in TargetOf(order[i].node, policy);
    }
  }

  lemma {:induction false} SumTargets(order: seq<Item>, assetIds: set<string>, policy: UrlPolicy)
    requires AllElements(order)
    ensures forall target :: target in SumOf(order, Contribution(assetIds, policy)).targets <==> SomeTarget(order, target, policy)
  {
    hide ElementOk, TargetOf, Contribution;
    if order != [] {
      hide SomeTarget;
      var init, last := order[..|order| - 1], order[|order| - 1];
      SumTargets(init, assetIds, policy);
      SumSplits(order, assetIds, policy);
      ContributionParts(last, assetIds, policy);
      forall target
        ensures SomeTarget(order, target, policy) <==> SomeTarget(init, target, policy) || target in TargetOf(last.node, policy)
      {
        MoreTargets(init, last, target, policy);
      }
    }
  }

  ghost predicate HeadingOf(item: Item) {
    item.node.Element? && item.node.kind.Heading?
  }

  function LevelOf(item: Item): int
    requires HeadingOf(item)
  {
    item.node.kind.level
  }

  ghost predicate NoHeading(before: seq<Item>) {
    forall k :: 0 <= k < |before| ==> !HeadingOf(before[k])
  }

  ghost predicate LastHeading(before: seq<Item>, i: int) {
    0 <= i < |before| && HeadingOf(before[i]) && forall k :: i < k < |before| ==> !HeadingOf(before[k])
  }

  ghost predicate Follows(before: seq<Item>, item: Item)
    requires HeadingOf(item)
  {
    if NoHeading(before) then LevelOf(item) == 1
    else exists i :: LastHeading(before, i) && LevelOf(item) <= LevelOf(before[i]) + 1
  }

  ghost predicate FollowAll(order: seq<Item>) {
    forall j :: 0 <= j < |order| && HeadingOf(order[j]) ==> Follows(order[..j], order[j])
  }

  lemma MoreFollow(init: seq<Item>, last: Item)
    ensures FollowAll(init + [last]) <==> FollowAll(init) && (HeadingOf(last) ==> Follows(init, last))
  {
    hide Follows, HeadingOf;
    var order := init + [last];
    assert order[|init|] == last && order[..|init|] == init;
    forall j | 0 <= j < |init| ensures order[j] == init[j] && order[..j] == init[..j] {
    }
    if FollowAll(order) {
      forall j | 0 <= j < |init| && HeadingOf(init[j]) ensures Follows(init[..j], init[j]) {
        assert HeadingOf(order[j]);
      }
    }
  }

  lemma MoreHeadings(levels: seq<int>, level: int)
    ensures HeadingsOk(levels + [level])
      <==> HeadingsOk(levels) && if levels == [] then level == 1 else level <= levels[|levels| - 1] + 1
  {
    var more := levels + [level];
    assert more[|levels|] == level && forall i :: 0 <= i < |levels| ==> more[i] == levels[i];
    if HeadingsOk(more) && levels != [] {
      assert more[|levels|] - more[|levels| - 1] <= 1;
    }
  }

  /** The last of the levels is that of the last heading, if there is one. */
  ghost predicate EndsWith(order: seq<Item>, levels: seq<int>) {
    if levels == [] then NoHeading(order)
    else exists i :: LastHeading(order, i) && LevelOf(order[i]) == levels[|levels| - 1]
  }

  lemma MoreEnds(init: seq<Item>, last: Item, levels: seq<int>)
    requires EndsWith(init, levels)
    ensures EndsWith(init + [last], if HeadingOf(last) then levels + [LevelOf(last)] else levels)
  {
    hide HeadingOf;
    var order := init + [last];
    if HeadingOf(last) {
      assert LastHeading(order, |init|);
    } else if levels != [] {
      var i :| LastHeading(init, i) && LevelOf(init[i]) == levels[|levels| - 1];
      assert LastHeading(order, i);
    }
  }

  lemma LastIsOne(order: seq<Item>, i: int, k: int)
    requires LastHeading(order, i) && LastHeading(order, k)
    ensures i == k
  {
  }

  lemma FollowsLevels(init: seq<Item>, last: Item, levels: seq<int>)
    requires EndsWith(init, levels) && HeadingOf(last)
    ensures Follows(init, last) <==> if levels == [] then LevelOf(last) == 1 else LevelOf(last) <= levels[|levels| - 1] + 1
  {
    hide HeadingOf;
    if levels != [] {
      var i :| LastHeading(init, i) && LevelOf(init[i]) == levels[|levels| - 1];
      if Follows(init, last) {
        var k :| LastHeading(init, k) && LevelOf(last) <= LevelOf(init[k]) + 1;
        LastIsOne(init, i, k);
      }
    }
  }

  lemma {:induction false} SumHeadings(order: seq<Item>)
    requires AllElements(order)
    ensures HeadingsOk(HeadingLevels(order)) <==> FollowAll(order)
    ensures EndsWith(order, HeadingLevels(order))
  {
    hide HeadingsOk, FollowAll, EndsWith, Follows, HeadingLevels;
    if order == [] {
      NothingFollows();
    } else {
      var init, last := order[..|order| - 1], order[|order| - 1];
      SumHeadings(init);
      assert order == init + [last];
      MoreFollow(init, last);
      MoreEnds(init, last, HeadingLevels(init));
      HeadingsSnoc(init, last);
      if HeadingOf(last) {
        MoreHeadings(HeadingLevels(init), LevelOf(last));
        FollowsLevels(init, last, HeadingLevels(init));
      } else {
        assert HeadingLevels(init) + [] == HeadingLevels(init);
      }
    }
  }

  lemma NothingFollows()
    ensures HeadingLevels([]) == [] && HeadingsOk([]) && FollowAll([]) && EndsWith([], [])
  {
  }

  // ---------------------------------------------------------------- from the list to the places

  lemma SamePrefix(p: Place, q: Place, n: nat, i: nat)
    requires i < n <= |p| && n <= |q| && p[..n] == q[..n]
    ensures p[i] == q[i]
  {
    assert p[..n][i] == q[..n][i];
  }

  lemma PrecedesOneWay(p: Place, q: Place)
    requires Precedes(p, q)
    ensures !Precedes(q, p) && p != q
  {
    var k :| 0 <= k < |p| && k < |q| && p[..k] == q[..k] && p[k] < q[k];
    if Precedes(q, p) {
      var m :| 0 <= m < |q| && m < |p| && q[..m] == p[..m] && q[m] < p[m];
      if m < k {
        SamePrefix(p, q, k, m);
      } else if k < m {
        SamePrefix(p, q, m, k);
      }
    }
  }

  lemma BeforeOneWay(p: Place, q: Place)
    requires Before(p, q)
    ensures !Before(q, p) && p != q
  {
    hide Precedes;
    if |p| == |q| {
      PrecedesOneWay(p, q);
    }
  }

  /** The whole list with its places: each element once, in order. */
  ghost predicate Listed(sections: seq<DocumentSection>, order: seq<Item>, all: seq<Place>) {
    && AllElements(order) && Located(sections, order, all)
    && forall p :: p in all <==> ElementAt(sections, p)
  }

  lemma SameOrder(sections: seq<DocumentSection>, order: seq<Item>, all: seq<Place>, i: nat, k: nat)
    requires Listed(sections, order, all) && i < |all| && k < |all|
    ensures (i < k <==> Before(all[i], all[k])) && (i == k <==> all[i] == all[k])
  {
    hide Matches, ElementAt, Before;
    if i < k {
      BeforeOneWay(all[i], all[k]);
    } else if k < i {
      BeforeOneWay(all[k], all[i]);
    } else if Before(all[i], all[i]) {
      BeforeOneWay(all[i], all[i]);
    }
  }

  lemma PlaceOf(sections: seq<DocumentSection>, order: seq<Item>, all: seq<Place>, p: Place) returns (i: nat)
    requires Listed(sections, order, all) && ElementAt(sections, p)
    ensures i < |all| == |order| && all[i] == p && Matches(sections, order[i], p)
  {
    i :| 0 <= i < |all| && all[i] == p;
  }

  lemma ElementsIff(doc: Document, policy: UrlPolicy, order: seq<Item>, all: seq<Place>)
    requires Listed(doc.sections, order, all)
    ensures ElementsAllowed(doc, policy) <==> |order| <= 2400 && AllOk(order, doc.assetIds, policy)
  {
    hide ElementOk, ElementAllowed, ElementAt, Before, Matches;
    CountIff(doc.sections, order, all);
    if AllOk(order, doc.assetIds, policy) {
      forall p | ElementAt(doc.sections, p) ensures ElementAllowed(doc, policy, p) {
        var i := PlaceOf(doc.sections, order, all, p);
        ElementIff(doc, policy, order[i], p);
      }
    }
    if forall p :: ElementAt(doc.sections, p) ==> ElementAllowed(doc, policy, p) {
      forall i | 0 <= i < |order| ensures ElementOk(order[i], doc.assetIds, policy) {
        assert all[i] in all;
        ElementIff(doc, policy, order[i], all[i]);
      }
    }
  }

  lemma CountIff(sections: seq<DocumentSection>, order: seq<Item>, all: seq<Place>)
    requires Listed(sections, order, all)
    ensures SomeElements(sections, all)
    ensures forall places :: SomeElements(sections, places) ==> |places| <= |order|
  {
    hide ElementAt, Matches;
    forall i, k | 0 <= i < k < |all| ensures all[i] != all[k] {
      SameOrder(sections, order, all, i, k);
    }
    forall i | 0 <= i < |all| ensures ElementAt(sections, all[i]) {
      assert all[i] in all;
    }
    forall places | SomeElements(sections, places) ensures |places| <= |order| {
      Fits(places, all);
    }
  }

  /** A list without repetitions is no longer than one that holds all its members. */
  lemma {:induction false} Fits(some: seq<Place>, all: seq<Place>)
    requires forall i, k :: 0 <= i < k < |some| ==> some[i] != some[k]
    requires forall i :: 0 <= i < |some| ==> some[i] in all
    ensures |some| <= |all|
    decreases |some|
  {
    if some != [] {
      var init, last := some[..|some| - 1], some[|some| - 1];
      var k :| 0 <= k < |all| && all[k] == last;
      var rest := all[..k] + all[k + 1..];
      forall i | 0 <= i < |init| ensures init[i] in rest {
        var m :| 0 <= m < |all| && all[m] == init[i];
        assert m < k ==> rest[m] == init[i];
        assert m > k ==> rest[m - 1] == init[i];
      }
      Fits(init, rest);
    }
  }

  lemma IdAt(sections: seq<DocumentSection>, order: seq<Item>, all: seq<Place>, i: nat, id: string)
    requires Listed(sections, order, all) && i < |order|
    ensures i < |all| && (IdOf(order[i], id) <==> HasId(sections, all[i], id))
  {
    assert Matches(sections, order[i], all[i]);
  }

  lemma SomeIdIff(sections: seq<DocumentSection>, order: seq<Item>, all: seq<Place>, id: string)
    requires Listed(sections, order, all)
    ensures SomeId(order, id) <==> exists p :: HasId(sections, p, id)
  {
    hide IdOf, ElementAt, NodeAt, Located;
    if SomeId(order, id) {
      var i :| 0 <= i < |order| && IdOf(order[i], id);
      IdAt(sections, order, all, i, id);
      assert HasId(sections, all[i], id);
    }
    if p :| HasId(sections, p, id) {
      var i := PlaceOf(sections, order, all, p);
      IdAt(sections, order, all, i, id);
    }
  }

  lemma NoIdTwiceIff(sections: seq<DocumentSection>, order: seq<Item>, all: seq<Place>)
    requires Listed(sections, order, all)
    ensures NoIdTwice(order) <==> forall p, q, id :: HasId(sections, p, id) && HasId(sections, q, id) ==> p == q
  {
    hide IdOf, ElementAt, NodeAt, Located, Before;
    if NoIdTwice(order) {
      forall p, q, id | HasId(sections, p, id) && HasId(sections, q, id) ensures p == q {
        var i := PlaceOf(sections, order, all, p);
        var k := PlaceOf(sections, order, all, q);
        IdAt(sections, order, all, i, id);
        IdAt(sections, order, all, k, id);
        assert !(i < k) && !(k < i);
      }
    }
    if forall p, q, id :: HasId(sections, p, id) && HasId(sections, q, id) ==> p == q {
      forall i, k, id | 0 <= i < k < |order| && IdOf(order[i], id) ensures !IdOf(order[k], id) {
        IdAt(sections, order, all, i, id);
        IdAt(sections, order, all, k, id);
        SameOrder(sections, order, all, i, k);
      }
    }
  }

  lemma IdsIff(doc: Document, policy: UrlPolicy, order: seq<Item>, all: seq<Place>)
    requires Listed(doc.sections, order, all) && AllOk(order, doc.assetIds, policy)
    ensures IdsAllowed(doc)
      <==> && NoIdTwice(order) && SomeId(order, doc.skipTarget)
           && forall target :: SomeTarget(order, target, policy) ==> SomeId(order, target)
  {
    hide Located, AllOk, SomeId, SomeTarget, NoIdTwice, HasId, LinksTo;
    NoIdTwiceIff(doc.sections, order, all);
    SomeIdIff(doc.sections, order, all, doc.skipTarget);
    forall target
      ensures SomeId(order, target) <==> exists p :: HasId(doc.sections, p, target)
      ensures SomeTarget(order, target, policy) <==> exists p :: LinksTo(doc.sections, p, target)
    {
      SomeIdIff(doc.sections, order, all, target);
      SomeTargetIff(doc, policy, order, all, target);
    }
    if IdsAllowed(doc) {
      forall target | SomeTarget(order, target, policy) ensures SomeId(order, target) {
        var p :| LinksTo(doc.sections, p, target);
      }
    }
    if forall target :: SomeTarget(order, target, policy) ==> SomeId(order, target) {
      forall p, target | LinksTo(doc.sections, p, target) ensures exists q :: HasId(doc.sections, q, target) {
        assert SomeTarget(order, target, policy);
      }
    }
  }

  /** Among elements that are allowed, a link's target is what follows the number sign of its href. */
  lemma TargetIff(item: Item, assetIds: set<string>, policy: UrlPolicy, target: string)
    requires item.node.Element? && ElementOk(item, assetIds, policy)
    ensures target in TargetOf(item.node, policy) <==> item.node.tag == A && item.node.attributes.href == Some("#" + target)
  {
    var href := item.node.attributes.href;
    if href.Some? {
      assert IsInternal(href.value) ==> href.value == "#" + href.value[1..];
      assert href.value == "#" + target ==> href.value[1..] == target;
    }
  }

  lemma SomeTargetIff(doc: Document, policy: UrlPolicy, order: seq<Item>, all: seq<Place>, target: string)
    requires Listed(doc.sections, order, all) && AllOk(order, doc.assetIds, policy)
    ensures SomeTarget(order, target, policy) <==> exists p :: LinksTo(doc.sections, p, target)
  {
    hide ElementOk, TargetOf, NodeAt, Before;
    if SomeTarget(order, target, policy) {
      var i :| 0 <= i < |order| && target in TargetOf(order[i].node, policy);
      assert Matches(doc.sections, order[i], all[i]);
      TargetIff(order[i], doc.assetIds, policy, target);
      assert LinksTo(doc.sections, all[i], target);
    }
    if p :| LinksTo(doc.sections, p, target) {
      var i := PlaceOf(doc.sections, order, all, p);
      TargetIff(order[i], doc.assetIds, policy, target);
    }
  }

  lemma MainsIff(sections: seq<DocumentSection>, order: seq<Item>, all: seq<Place>)
    requires Listed(sections, order, all)
    ensures MainAllowed(sections) <==> OneMain(order) && SomeFullMain(order)
  {
    hide NodeAt, Before, Located;
    forall i | 0 <= i < |order|
      ensures i < |all| && Matches(sections, order[i], all[i]) && (MainOf(order[i]) <==> MainAt(sections, all[i]))
    {
      MainIff(sections, order, all, i);
    }
    if OneMain(order) && SomeFullMain(order) {
      var i :| 0 <= i < |order| && MainOf(order[i]) && forall k :: 0 <= k < |order| && MainOf(order[k]) ==> k == i;
      var full :| 0 <= full < |order| && FullMainOf(order[full]);
      assert full == i;
      forall q | MainAt(sections, q) ensures q == all[i] {
        var k := PlaceOf(sections, order, all, q);
        assert MainOf(order[k]);
      }
    }
    if MainAllowed(sections) {
      MainListed(sections, order, all);
    }
  }

  lemma MainListed(sections: seq<DocumentSection>, order: seq<Item>, all: seq<Place>)
    requires Listed(sections, order, all) && MainAllowed(sections)
    ensures OneMain(order) && SomeFullMain(order)
  {
    hide NodeAt, Before, Located;
    var p :| MainAt(sections, p) && NodeAt(sections, p).value.children != [] && forall q :: MainAt(sections, q) ==> q == p;
    var i := PlaceOf(sections, order, all, p);
    assert FullMainOf(order[i]);
    forall k | 0 <= k < |order| && MainOf(order[k]) ensures k == i {
      MainIff(sections, order, all, k);
      SameOrder(sections, order, all, i, k);
    }
  }

  lemma MainIff(sections: seq<DocumentSection>, order: seq<Item>, all: seq<Place>, i: nat)
    requires Listed(sections, order, all) && i < |order|
    ensures i < |all| && Matches(sections, order[i], all[i]) && (MainOf(order[i]) <==> MainAt(sections, all[i]))
  {
    assert Matches(sections, order[i], all[i]);
  }

  lemma HeadingIff(sections: seq<DocumentSection>, order: seq<Item>, all: seq<Place>, i: nat)
    requires Listed(sections, order, all) && i < |order|
    ensures |all| == |order| && (HeadingOf(order[i]) <==> HeadingAt(sections, all[i]))
    ensures HeadingOf(order[i]) ==> LevelOf(order[i]) == LevelAt(sections, all[i])
  {
    assert Matches(sections, order[i], all[i]);
  }

  /** The list knows which heading is the first and which come next to each other. */
  lemma FirstIff(sections: seq<DocumentSection>, order: seq<Item>, all: seq<Place>, j: nat)
    requires Listed(sections, order, all) && j < |order|
    ensures j < |all| && (FirstHeading(sections, all[j]) <==> HeadingOf(order[j]) && NoHeading(order[..j]))
  {
    hide HeadingOf, HeadingAt, Before, Located;
    HeadingIff(sections, order, all, j);
    assert forall k :: 0 <= k < j ==> order[..j][k] == order[k];
    if FirstHeading(sections, all[j]) {
      forall k | 0 <= k < j ensures !HeadingOf(order[..j][k]) {
        HeadingIff(sections, order, all, k);
        SameOrder(sections, order, all, k, j);
      }
    }
    if HeadingOf(order[j]) && NoHeading(order[..j]) {
      forall p | HeadingAt(sections, p) ensures !Before(p, all[j]) {
        HeadingElement(sections, p);
        var k := PlaceOf(sections, order, all, p);
        HeadingIff(sections, order, all, k);
        SameOrder(sections, order, all, k, j);
      }
    }
  }

  lemma HeadingElement(sections: seq<DocumentSection>, p: Place)
    requires HeadingAt(sections, p)
    ensures ElementAt(sections, p)
  {
  }

  lemma NextIff(sections: seq<DocumentSection>, order: seq<Item>, all: seq<Place>, i: nat, j: nat)
    requires Listed(sections, order, all) && i < |order| && j < |order|
    ensures |all| == |order|
    ensures NextHeading(sections, all[i], all[j]) <==> HeadingOf(order[j]) && LastHeading(order[..j], i)
  {
    hide HeadingOf, HeadingAt, Before, Located;
    HeadingIff(sections, order, all, i);
    HeadingIff(sections, order, all, j);
    SameOrder(sections, order, all, i, j);
    assert forall k :: 0 <= k < j ==> order[..j][k] == order[k];
    if NextHeading(sections, all[i], all[j]) {
      forall k | i < k < j ensures !HeadingOf(order[..j][k]) {
        HeadingIff(sections, order, all, k);
        SameOrder(sections, order, all, i, k);
        SameOrder(sections, order, all, k, j);
      }
    }
    if HeadingOf(order[j]) && LastHeading(order[..j], i) {
      forall r | HeadingAt(sections, r) ensures !(Before(all[i], r) && Before(r, all[j])) {
        HeadingElement(sections, r);
        var k := PlaceOf(sections, order, all, r);
        HeadingIff(sections, order, all, k);
        SameOrder(sections, order, all, i, k);
        SameOrder(sections, order, all, k, j);
      }
    }
  }

  lemma {:induction false} SomeLast(before: seq<Item>)
    ensures NoHeading(before) || exists i :: LastHeading(before, i)
  {
    if before != [] {
      var init, last := before[..|before| - 1], before[|before| - 1];
      if HeadingOf(last) {
        assert LastHeading(before, |before| - 1);
      } else {
        SomeLast(init);
        assert NoHeading(init) ==> NoHeading(before) by {
          assert forall k :: 0 <= k < |init| ==> before[k] == init[k];
        }
        if i :| LastHeading(init, i) {
          assert LastHeading(before, i);
        }
      }
    }
  }

  lemma HeadingsFollow(sections: seq<DocumentSection>, order: seq<Item>, all: seq<Place>)
    requires Listed(sections, order, all) && HeadingsAllowed(sections)
    ensures FollowAll(order)
  {
    hide HeadingOf, HeadingAt, Located, NoHeading, LastHeading, FirstHeading, NextHeading;
    forall j | 0 <= j < |order| && HeadingOf(order[j]) ensures Follows(order[..j], order[j]) {
      FirstIff(sections, order, all, j);
      HeadingIff(sections, order, all, j);
      SomeLast(order[..j]);
      if !NoHeading(order[..j]) {
        var i :| LastHeading(order[..j], i);
        LastIsHeading(order[..j], i);
        NextIff(sections, order, all, i, j);
        HeadingIff(sections, order, all, i);
      }
    }
  }

  lemma LastIsHeading(before: seq<Item>, i: int)
    requires LastHeading(before, i)
    ensures 0 <= i < |before| && HeadingOf(before[i]) && !NoHeading(before)
  {
  }

  lemma FollowingHeadings(sections: seq<DocumentSection>, order: seq<Item>, all: seq<Place>)
    requires Listed(sections, order, all) && FollowAll(order)
    ensures HeadingsAllowed(sections)
  {
    hide HeadingOf, Located, NoHeading;
    forall q | FirstHeading(sections, q) ensures LevelAt(sections, q) == 1 {
      var j := PlaceOf(sections, order, all, q);
      FirstIff(sections, order, all, j);
      HeadingIff(sections, order, all, j);
    }
    forall p, q | NextHeading(sections, p, q) ensures LevelAt(sections, q) <= LevelAt(sections, p) + 1 {
      var i := PlaceOf(sections, order, all, p);
      var j := PlaceOf(sections, order, all, q);
      NextIff(sections, order, all, i, j);
      HeadingIff(sections, order, all, i);
      HeadingIff(sections, order, all, j);
      LastIsHeading(order[..j], i);
      var k :| LastHeading(order[..j], k) && LevelOf(order[j]) <= LevelOf(order[..j][k]) + 1;
      LastIsOne(order[..j], i, k);
    }
  }

  // ---------------------------------------------------------------- landmarks

  ghost predicate OthersLack(landmarks: seq<Landmark>, i: int, role: string) {
    forall k :: 0 <= k < |landmarks| && k != i ==> landmarks[k].role != role
  }

  lemma {:induction false} RolesCounted(landmarks: seq<Landmark>, role: string)
    ensures RoleCount(landmarks, role) == 0 <==> OthersLack(landmarks, -1, role)
    ensures RoleCount(landmarks, role) == 1
      <==> exists i :: 0 <= i < |landmarks| && landmarks[i].role == role && OthersLack(landmarks, i, role)
  {
    if landmarks != [] {
      var init, last := landmarks[..|landmarks| - 1], landmarks[|landmarks| - 1];
      RolesCounted(init, role);
      assert forall k :: 0 <= k < |init| ==> landmarks[k] == init[k];
      if last.role == role {
        assert OthersLack(landmarks, |init|, role) <==> OthersLack(init, -1, role);
        forall i | 0 <= i < |init| ensures !OthersLack(landmarks, i, role) {
          assert landmarks[|init|].role == role;
        }
      } else {
        forall i | -1 <= i < |init| ensures OthersLack(landmarks, i, role) <==> OthersLack(init, i, role) {
        }
        if i :| 0 <= i < |init| && init[i].role == role && OthersLack(init, i, role) {
          assert landmarks[i].role == role && OthersLack(landmarks, i, role);
        }
      }
    }
  }

  lemma LandmarksIff(landmarks: seq<Landmark>, sections: seq<DocumentSection>)
    ensures LandmarksOk(landmarks, SectionIds(sections)) <==> LandmarksAllowed(landmarks, sections)
  {
    hide RoleCount;
    RolesCounted(landmarks, "main");
    forall i | 0 <= i < |landmarks|
      ensures RoleCount(landmarks, landmarks[i].role) > 1 <==> !OthersLack(landmarks, i, landmarks[i].role)
    {
      RolesCounted(landmarks, landmarks[i].role);
    }
  }

  lemma LocatedElements(sections: seq<DocumentSection>, items: seq<Item>, places: seq<Place>)
    requires Located(sections, items, places)
    ensures AllElements(items)
  {
    forall i | 0 <= i < |items| ensures items[i].node.Element? {
      assert Matches(sections, items[i], places[i]);
    }
  }

  ghost predicate TreesAllowed(doc: Document, policy: UrlPolicy) {
    ElementsAllowed(doc, policy) && IdsAllowed(doc) && MainAllowed(doc.sections) && HeadingsAllowed(doc.sections)
  }

  lemma SumVisited(order: seq<Item>, assetIds: set<string>, policy: UrlPolicy)
    requires AllElements(order)
    ensures |SumOf(order, Contribution(assetIds, policy)).visited| == |order|
  {
    ContributionsVisit(order, assetIds, policy);
  }

  lemma ListIff(order: seq<Item>, sum: Summary, doc: Document, policy: UrlPolicy)
    requires AllElements(order) && sum == SumOf(order, Contribution(doc.assetIds, policy))
    ensures TreesOk(sum, HeadingLevels(order), doc.skipTarget)
      <==> && |order| <= 2400 && AllOk(order, doc.assetIds, policy) && NoIdTwice(order) && OneMain(order) && SomeFullMain(order)
           && SomeId(order, doc.skipTarget) && (forall target :: SomeTarget(order, target, policy) ==> SomeId(order, target))
           && FollowAll(order)
  {
    hide SumOf, HeadingLevels, HeadingsOk, AllOk, NoIdTwice, OneMain, SomeFullMain, SomeId, SomeTarget, FollowAll, Contribution;
    SumVisited(order, doc.assetIds, policy);
    SumOk(order, doc.assetIds, policy);
    SumIds(order, doc.assetIds, policy);
    SumMains(order, doc.assetIds, policy);
    SumTargets(order, doc.assetIds, policy);
    SumHeadings(order);
  }

  lemma TreesIff(doc: Document, policy: UrlPolicy, order: seq<Item>, all: seq<Place>)
    requires Listed(doc.sections, order, all)
    ensures TreesOk(SumOf(order, Contribution(doc.assetIds, policy)), HeadingLevels(order), doc.skipTarget)
      <==> TreesAllowed(doc, policy)
  {
    hide TreesOk, AllOk, NoIdTwice, OneMain, SomeFullMain, SomeId, SomeTarget, FollowAll, Located;
    hide ElementsAllowed, IdsAllowed, MainAllowed, HeadingsAllowed;
    ListIff(order, SumOf(order, Contribution(doc.assetIds, policy)), doc, policy);
    ElementsIff(doc, policy, order, all);
    MainsIff(doc.sections, order, all);
    if AllOk(order, doc.assetIds, policy) {
      IdsIff(doc, policy, order, all);
    }
    if HeadingsAllowed(doc.sections) {
      HeadingsFollow(doc.sections, order, all);
    }
    if FollowAll(order) {
      FollowingHeadings(doc.sections, order, all);
    }
  }

  /** The document summed by recursion over its trees, and its headings read level by level, are those of one list. */
  lemma DocumentListed(doc: Document, policy: UrlPolicy) returns (order: seq<Item>, all: seq<Place>)
    ensures Listed(doc.sections, order, all)
    ensures DocumentSum(doc.sections, Contribution(doc.assetIds, policy)) == SumOf(order, Contribution(doc.assetIds, policy))
    ensures HeadingsByLevel(doc.sections) == HeadingLevels(order)
  {
    hide Located;
    RootsAreElements(doc.sections);
    order := LevelOrder(RootItems(doc.sections));
    all := DocumentLocated(doc.sections);
    LocatedElements(doc.sections, order, all);
    DocumentVisited(doc.sections, Contribution(doc.assetIds, policy));
    BreadthFirstIsLevelOrder(RootItems(doc.sections));
  }

  /** The validator's own predicate, by recursion and sums, says the same as the rules place by place. */
  lemma AcceptsIff(doc: Document, policy: UrlPolicy)
    ensures Accepts(doc, policy) <==> Acceptable(doc, policy)
  {
    hide TreesOk, TreesAllowed, Listed, LandmarksAllowed, LandmarksOk, HeadingsByLevel, DocumentSum, SumOf, HeadingLevels, SectionIds;
    var order, all := DocumentListed(doc, policy);
    TreesIff(doc, policy, order, all);
    LandmarksIff(doc.landmarks, doc.sections);
    AcceptableSplits(doc, policy);
  }

  lemma AcceptableSplits(doc: Document, policy: UrlPolicy)
    ensures Acceptable(doc, policy)
      <==> && AssetsOk(doc.assetUris, policy) && DistinctSections(doc.sections)
           && LandmarksAllowed(doc.landmarks, doc.sections) && TreesAllowed(doc, policy)
  {
    hide LandmarksAllowed, ElementsAllowed, IdsAllowed, MainAllowed, HeadingsAllowed;
  }

  /** The refinement accepts a document exactly when the rules allow it, place by place. */
  method Validate(doc: Document, policy: UrlPolicy) returns (accepted: bool)
    ensures accepted <==> Acceptable(doc, policy)
  {
    hide TreesOk, Acceptable, HeadingsByLevel, DocumentSum, SectionIds, LandmarkOk;
    AcceptsIff(doc, policy);
    var assetsOk := true;
    for index := 0 to |doc.assetUris|
      invariant assetsOk <==> forall i :: 0 <= i < index ==> policy.assetUrl(doc.assetUris[i])
    {
      if !policy.assetUrl(doc.assetUris[index]) {
        assetsOk := false;
      }
    }
    var distinct, sectionIds, queue := CollectRoots(doc.sections);
    var treesOk := CheckTrees(queue, doc, policy);
    var landmarksOk := CheckLandmarks(doc.landmarks, sectionIds);
    var mains := RoleCount(doc.landmarks, "main");
    accepted := assetsOk && distinct && treesOk && landmarksOk && mains == 1;
  }
}
