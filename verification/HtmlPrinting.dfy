/** When serializing a document throws, said place by place. */
module HtmlPrinting {
  import opened Basics
  import opened HtmlTree
  import opened HtmlValidator
  import opened HtmlSchema
  import opened HtmlSerializer
  import opened HtmlDocumentParts
  import opened HtmlPlaces
  import opened HtmlAcceptance

  // ---------------------------------------------------------------- what is printed, and what makes it throw

  /** An element with no rule and no image above it; what those hold is not printed. */
  predicate PrintedIn(ns: seq<Node>, path: seq<nat>)
    decreases |path|
  {
    && path != [] && path[0] < |ns| && ns[path[0]].Element?
    && (|path| == 1 || (ns[path[0]].tag !in {Hr, Img} && PrintedIn(ns[path[0]].children, path[1..])))
  }

  predicate PrintedAt(sections: seq<DocumentSection>, p: Place) {
    p != [] && p[0] < |sections| && PrintedIn(sections[p[0]].elements, p[1..])
  }

  /** A link goes where the policy lets it go; the source of an image is an asset, any other source an external URL. */
  predicate UrlsPass(n: Node, policy: UrlPolicy)
    requires n.Element?
  {
    var href, src := n.attributes.href, n.attributes.src;
    && (href != None && href.value != "" ==> LinkAllowed(href.value, policy))
    && (src != None && src.value != "" ==> if n.tag == Img then policy.assetUrl(src.value) else policy.externalUrl(src.value))
  }

  lemma {:induction false} PrintedIsElement(ns: seq<Node>, path: seq<nat>)
    requires PrintedIn(ns, path)
    ensures NodeIn(ns, path).Some? && NodeIn(ns, path).value.Element?
    decreases |path|
  {
    if |path| > 1 {
      PrintedIsElement(ns[path[0]].children, path[1..]);
    }
  }

  /** The path leads to a printed element with this id. */
  ghost predicate IdIn(ns: seq<Node>, path: seq<nat>, id: string) {
    PrintedIn(ns, path) && NodeIn(ns, path).Some? && NodeIn(ns, path).value.Element? && NodeIn(ns, path).value.id == Some(id)
  }

  ghost predicate UrlIn(ns: seq<Node>, path: seq<nat>, policy: UrlPolicy) {
    NodeIn(ns, path).Some? && NodeIn(ns, path).value.Element? && UrlsPass(NodeIn(ns, path).value, policy)
  }

  ghost predicate Has(ns: seq<Node>, id: string) {
    exists path :: IdIn(ns, path, id)
  }

  ghost predicate Once(ns: seq<Node>) {
    forall p, q, id :: IdIn(ns, p, id) && IdIn(ns, q, id) ==> p == q
  }

  ghost predicate UrlsIn(ns: seq<Node>, policy: UrlPolicy) {
    forall path :: PrintedIn(ns, path) ==> UrlIn(ns, path, policy)
  }

  // ---------------------------------------------------------------- an element and its children, siblings, sections

  /** The same for one node: the empty path is the node itself. */
  ghost predicate IdUnder(n: Node, path: seq<nat>, id: string) {
    n.Element? && if path == [] then n.id == Some(id) else n.tag !in {Hr, Img} && IdIn(n.children, path, id)
  }

  ghost predicate HasUnder(n: Node, id: string) {
    exists path :: IdUnder(n, path, id)
  }

  ghost predicate OnceUnder(n: Node) {
    forall p, q, id :: IdUnder(n, p, id) && IdUnder(n, q, id) ==> p == q
  }

  ghost predicate UrlsUnder(n: Node, policy: UrlPolicy) {
    n.Element? ==> UrlsPass(n, policy) && (n.tag !in {Hr, Img} ==> UrlsIn(n.children, policy))
  }

  lemma IdInSplits(ns: seq<Node>, path: seq<nat>, id: string)
    requires path != [] && ns != []
    ensures IdIn(ns, path, id) <==>
            if path[0] == 0 then IdUnder(ns[0], path[1..], id) else IdIn(ns[1..], [path[0] - 1] + path[1..], id)
  {
    if path[0] == 0 {
      assert |path| == 1 <==> path[1..] == [];
    } else {
      var shifted := [path[0] - 1] + path[1..];
      assert shifted[1..] == path[1..];
      assert shifted[0] < |ns[1..]| ==> ns[1..][shifted[0]] == ns[path[0]];
    }
  }

  function Shifted(path: seq<nat>): seq<nat>
    requires path != []
  {
    [path[0] + 1] + path[1..]
  }

  lemma FromRest(ns: seq<Node>, path: seq<nat>, id: string)
    requires ns != [] && IdIn(ns[1..], path, id)
    ensures path != [] && IdIn(ns, Shifted(path), id)
  {
    var shifted := Shifted(path);
    IdInSplits(ns, shifted, id);
    assert [shifted[0] - 1] + shifted[1..] == path;
  }

  lemma FromFirst(ns: seq<Node>, path: seq<nat>, id: string)
    requires ns != [] && IdUnder(ns[0], path, id)
    ensures IdIn(ns, [0] + path, id)
  {
    IdInSplits(ns, [0] + path, id);
    assert ([0] + path)[1..] == path;
  }

  lemma HasSplits(ns: seq<Node>, id: string)
    requires ns != []
    ensures Has(ns, id) <==> HasUnder(ns[0], id) || Has(ns[1..], id)
  {
    hide IdIn, IdUnder;
    if path :| IdIn(ns, path, id) {
      NoEmptyPath(ns, path, id);
      IdInSplits(ns, path, id);
    }
    if path :| IdUnder(ns[0], path, id) {
      FromFirst(ns, path, id);
    }
    if path :| IdIn(ns[1..], path, id) {
      FromRest(ns, path, id);
    }
  }

  lemma OnceSplits(ns: seq<Node>)
    requires ns != [] && Once(ns)
    ensures OnceUnder(ns[0]) && Once(ns[1..]) && forall id :: HasUnder(ns[0], id) ==> !Has(ns[1..], id)
  {
    hide IdIn, IdUnder;
    forall p, q, id | IdUnder(ns[0], p, id) && IdUnder(ns[0], q, id) ensures p == q {
      FromFirst(ns, p, id);
      FromFirst(ns, q, id);
      assert ([0] + p)[1..] == p && ([0] + q)[1..] == q;
    }
    forall p, q, id | IdIn(ns[1..], p, id) && IdIn(ns[1..], q, id) ensures p == q {
      FromRest(ns, p, id);
      FromRest(ns, q, id);
      assert Shifted(p)[1..] == p[1..] && Shifted(q)[1..] == q[1..];
      assert p == [p[0]] + p[1..] && q == [q[0]] + q[1..];
    }
    forall p, q, id | IdUnder(ns[0], p, id) ensures !IdIn(ns[1..], q, id) {
      FromFirst(ns, p, id);
      if IdIn(ns[1..], q, id) {
        FromRest(ns, q, id);
      }
    }
  }

  lemma OnceJoins(ns: seq<Node>)
    requires ns != [] && OnceUnder(ns[0]) && Once(ns[1..]) && forall id :: HasUnder(ns[0], id) ==> !Has(ns[1..], id)
    ensures Once(ns)
  {
    hide IdIn, IdUnder;
    forall p, q, id | IdIn(ns, p, id) && IdIn(ns, q, id) ensures p == q {
      NoEmptyPath(ns, p, id);
      NoEmptyPath(ns, q, id);
      IdInSplits(ns, p, id);
      IdInSplits(ns, q, id);
      assert p == [p[0]] + p[1..] && q == [q[0]] + q[1..];
      assert (p[0] == 0 ==> HasUnder(ns[0], id)) && (p[0] != 0 ==> Has(ns[1..], id));
      assert (q[0] == 0 ==> HasUnder(ns[0], id)) && (q[0] != 0 ==> Has(ns[1..], id));
      if p[0] != 0 {
        assert ([p[0] - 1] + p[1..])[1..] == p[1..] && ([q[0] - 1] + q[1..])[1..] == q[1..];
      }
    }
  }

  lemma NoEmptyPath(ns: seq<Node>, path: seq<nat>, id: string)
    requires IdIn(ns, path, id)
    ensures path != []
  {
  }

  lemma HasUnderSplits(n: Node, id: string)
    requires n.Element?
    ensures HasUnder(n, id) <==> n.id == Some(id) || (n.tag !in {Hr, Img} && Has(n.children, id))
  {
    hide IdIn;
    if n.id == Some(id) {
      assert IdUnder(n, [], id);
    }
    if n.tag !in {Hr, Img} && Has(n.children, id) {
      var path :| IdIn(n.children, path, id);
      NoEmptyPath(n.children, path, id);
      assert IdUnder(n, path, id);
    }
  }

  lemma OnceUnderSplits(n: Node)
    requires n.Element?
    ensures OnceUnder(n) <==> (n.tag !in {Hr, Img} ==> Once(n.children) && forall id :: n.id == Some(id) ==> !Has(n.children, id))
  {
    hide IdIn;
    if OnceUnder(n) && n.tag !in {Hr, Img} {
      forall p, id | IdIn(n.children, p, id) ensures p != [] && IdUnder(n, p, id) {
        NoEmptyPath(n.children, p, id);
      }
      forall id | n.id == Some(id) ensures IdUnder(n, [], id) {
      }
    }
  }

  // ---------------------------------------------------------------- the multiset of printed ids

  lemma UniqueSplits(a: multiset<string>, b: multiset<string>)
    ensures Unique(a + b) <==> Unique(a) && Unique(b) && forall id :: id in a ==> id !in b
  {
    forall id ensures (a + b)[id] == a[id] + b[id] {
    }
    if Unique(a + b) {
      forall id ensures a[id] <= 1 && b[id] <= 1 && (id in a ==> id !in b) {
        assert (a + b)[id] <= 1;
      }
    }
  }

  lemma {:induction false} IdsOfNode(n: Node)
    ensures forall id :: id in PrintedIds(n) <==> HasUnder(n, id)
    ensures Unique(PrintedIds(n)) <==> OnceUnder(n)
    decreases n, 0
  {
    hide IdIn, Has, Once, Unique;
    if n.Text? {
      assert forall path, id :: !IdUnder(n, path, id);
      NoIds();
    } else {
      hide HasUnder, OnceUnder;
      var own, below := OwnId(n.id), if IsVoid(n.tag) then multiset{} else AllPrintedIds(n.children);
      assert PrintedIds(n) == own + below;
      UniqueSplits(own, below);
      OneId(n.id);
      NoIds();
      OnceUnderSplits(n);
      if !IsVoid(n.tag) {
        IdsOfForest(n.children);
      }
      forall id ensures HasUnder(n, id) <==> n.id == Some(id) || (!IsVoid(n.tag) && Has(n.children, id)) {
        HasUnderSplits(n, id);
      }
    }
  }

  lemma OneId(id: Option<string>)
    ensures Unique(OwnId(id)) && forall x :: x in OwnId(id) <==> id == Some(x)
  {
  }

  lemma NothingIn()
    ensures Once([]) && forall id :: !Has([], id)
  {
  }

  lemma {:induction false} IdsOfForest(ns: seq<Node>)
    ensures forall id :: id in AllPrintedIds(ns) <==> Has(ns, id)
    ensures Unique(AllPrintedIds(ns)) <==> Once(ns)
    decreases ns, 1
  {
    hide IdIn, Unique;
    if ns == [] {
      NoIds();
      NothingIn();
    } else {
      hide HasUnder, OnceUnder, Has, Once;
      IdsOfNode(ns[0]);
      IdsOfForest(ns[1..]);
      UniqueSplits(PrintedIds(ns[0]), AllPrintedIds(ns[1..]));
      forall id ensures Has(ns, id) <==> HasUnder(ns[0], id) || Has(ns[1..], id) {
        HasSplits(ns, id);
      }
      if Once(ns) {
        OnceSplits(ns);
      }
      if OnceUnder(ns[0]) && Once(ns[1..]) && forall id :: HasUnder(ns[0], id) ==> !Has(ns[1..], id) {
        OnceJoins(ns);
      }
    }
  }

  // ---------------------------------------------------------------- URLs

  lemma PrintedSplits(ns: seq<Node>, path: seq<nat>)
    requires path != [] && ns != []
    ensures path[0] > 0 ==>
      && (PrintedIn(ns, path) <==> PrintedIn(ns[1..], [path[0] - 1] + path[1..]))
      && NodeIn(ns, path) == NodeIn(ns[1..], [path[0] - 1] + path[1..])
    ensures path[0] == 0 && |path| == 1 ==> (PrintedIn(ns, path) <==> ns[0].Element?) && NodeIn(ns, path) == Some(ns[0])
    ensures path[0] == 0 && |path| > 1 ==>
      && (PrintedIn(ns, path) <==> ns[0].Element? && ns[0].tag !in {Hr, Img} && PrintedIn(ns[0].children, path[1..]))
      && (ns[0].Element? ==> NodeIn(ns, path) == NodeIn(ns[0].children, path[1..]))
  {
    var shifted := if path[0] > 0 then [path[0] - 1] + path[1..] else path;
    assert shifted[1..] == path[1..];
  }

  lemma UrlsSplit(ns: seq<Node>, policy: UrlPolicy)
    requires ns != []
    ensures UrlsIn(ns, policy) <==> UrlsUnder(ns[0], policy) && UrlsIn(ns[1..], policy)
  {
    hide UrlsPass, PrintedIn, NodeIn;
    forall path | PrintedIn(ns, path) ensures path != [] {
      PrintedPath(ns, path);
    }
    forall path: seq<nat> | path != []
      ensures PrintedIn(ns, [0] + path) <==> ns[0].Element? && ns[0].tag !in {Hr, Img} && PrintedIn(ns[0].children, path)
      ensures ns[0].Element? ==> NodeIn(ns, [0] + path) == NodeIn(ns[0].children, path)
      ensures PrintedIn(ns, Shifted(path)) <==> PrintedIn(ns[1..], path)
      ensures NodeIn(ns, Shifted(path)) == NodeIn(ns[1..], path)
    {
      PrintedSplits(ns, [0] + path);
      assert ([0] + path)[1..] == path;
      PrintedSplits(ns, Shifted(path));
      assert [Shifted(path)[0] - 1] + Shifted(path)[1..] == path;
    }
    PrintedSplits(ns, [0]);
    if UrlsIn(ns, policy) {
      forall path | PrintedIn(ns[1..], path) ensures UrlIn(ns[1..], path, policy) {
        PrintedPath(ns[1..], path);
        assert PrintedIn(ns, Shifted(path));
      }
      if ns[0].Element? {
        assert UrlIn(ns, [0], policy);
        forall path | ns[0].tag !in {Hr, Img} && PrintedIn(ns[0].children, path) ensures UrlIn(ns[0].children, path, policy) {
          PrintedPath(ns[0].children, path);
          assert PrintedIn(ns, [0] + path);
        }
      }
    }
    if UrlsUnder(ns[0], policy) && UrlsIn(ns[1..], policy) {
      forall path | PrintedIn(ns, path) ensures UrlIn(ns, path, policy) {
        PrintedSplits(ns, path);
      }
    }
  }

  lemma PrintedPath(ns: seq<Node>, path: seq<nat>)
    requires PrintedIn(ns, path)
    ensures path != []
  {
  }

  lemma UrlsIff(n: Node, policy: UrlPolicy)
    requires n.Element?
    ensures PrintableUrls(n.tag, n.attributes, policy) <==> UrlsPass(n, policy)
  {
    var href := n.attributes.href;
    if href.Some? {
      assert IsInternal(href.value) <==> "#" <= href.value;
    }
  }

  lemma {:induction false} NodePrintable(n: Node, policy: UrlPolicy)
    ensures Printable(n, policy) <==> UrlsUnder(n, policy)
    decreases n, 0
  {
    hide UrlsIn, UrlsPass, PrintableUrls;
    if n.Element? {
      UrlsIff(n, policy);
      ForestPrintable(n.children, policy);
    }
  }

  lemma {:induction false} ForestPrintable(ns: seq<Node>, policy: UrlPolicy)
    ensures AllPrintable(ns, policy) <==> UrlsIn(ns, policy)
    decreases ns, 1
  {
    if ns == [] {
      assert forall path :: !PrintedIn(ns, path);
    } else {
      hide UrlsIn, UrlsUnder, Printable;
      NodePrintable(ns[0], policy);
      ForestPrintable(ns[1..], policy);
      UrlsSplit(ns, policy);
    }
  }

  // ---------------------------------------------------------------- the whole document

  ghost predicate PrintsId(sections: seq<DocumentSection>, p: Place, id: string) {
    PrintedAt(sections, p) && HasId(sections, p, id)
  }

  /** Serializing goes through: one main, which is not empty, no id printed twice, and every printed URL passes. */
  ghost predicate Serializes(sections: seq<DocumentSection>, policy: UrlPolicy) {
    && MainAllowed(sections)
    && (forall p, q, id :: PrintsId(sections, p, id) && PrintsId(sections, q, id) ==> p == q)
    && forall p :: PrintedAt(sections, p) ==> ElementAt(sections, p) && UrlsPass(NodeAt(sections, p).value, policy)
  }

  function NoAttributes(): Attributes {
    Attributes(None, None, None, None, None, None, None, None, None, None, None, None, None, None, None, None, None, None)
  }

  /** A section as an element without id and URLs. */
  function AsNode(section: DocumentSection): Node {
    Element(Other, None, Section, NoAttributes(), [], None, None, section.elements)
  }

  function AsNodes(sections: seq<DocumentSection>): (ns: seq<Node>)
    ensures |ns| == |sections| && forall i :: 0 <= i < |ns| ==> ns[i] == AsNode(sections[i])
  {
    seq(|sections|, i requires 0 <= i < |sections| => AsNode(sections[i]))
  }

  lemma {:induction false} SectionsPrint(sections: seq<DocumentSection>, policy: UrlPolicy)
    ensures AllPrintable(AsNodes(sections), policy) <==> AllPrintable(BodyElements(sections), policy)
  {
    if sections != [] {
      var first, rest := sections[0], sections[1..];
      SectionsPrint(rest, policy);
      assert AsNodes(sections)[1..] == AsNodes(rest);
      PrintableAppend(first.elements, BodyElements(rest), policy);
    }
  }

  lemma {:induction false} SectionIdsPrint(sections: seq<DocumentSection>)
    ensures AllPrintedIds(AsNodes(sections)) == AllPrintedIds(BodyElements(sections))
  {
    if sections != [] {
      var first, rest := sections[0], sections[1..];
      SectionIdsPrint(rest);
      assert AsNodes(sections)[1..] == AsNodes(rest);
      IdsAppend(first.elements, BodyElements(rest));
      assert PrintedIds(AsNode(first)) == multiset{} + AllPrintedIds(first.elements);
    }
  }

  /** A place in the document is a path from the sections as nodes. */
  lemma PlaceIsPath(sections: seq<DocumentSection>, p: Place)
    ensures |p| >= 2 ==> NodeIn(AsNodes(sections), p) == NodeAt(sections, p)
    ensures |p| >= 2 ==> (PrintedIn(AsNodes(sections), p) <==> PrintedAt(sections, p))
    ensures |p| < 2 ==> !PrintedAt(sections, p) && !ElementAt(sections, p)
    ensures |p| == 1 && p[0] < |sections| ==> NodeIn(AsNodes(sections), p) == Some(AsNode(sections[p[0]]))
    ensures PrintedIn(AsNodes(sections), p) ==> p != [] && p[0] < |sections|
  {
  }

  lemma PlacesPrint(sections: seq<DocumentSection>, policy: UrlPolicy)
    ensures Once(AsNodes(sections))
      <==> forall p, q, id :: PrintsId(sections, p, id) && PrintsId(sections, q, id) ==> p == q
    ensures UrlsIn(AsNodes(sections), policy)
      <==> forall p :: PrintedAt(sections, p) ==> ElementAt(sections, p) && UrlsPass(NodeAt(sections, p).value, policy)
  {
    hide NodeIn, NodeAt, PrintedIn, PrintedAt, UrlsPass;
    forall p, id
      ensures IdIn(AsNodes(sections), p, id) <==> PrintsId(sections, p, id)
    {
      PlaceIsPath(sections, p);
    }
    forall p
      ensures PrintedAt(sections, p) ==> PrintedIn(AsNodes(sections), p)
      ensures PrintedIn(AsNodes(sections), p) && !PrintedAt(sections, p) ==> UrlIn(AsNodes(sections), p, policy)
      ensures PrintedAt(sections, p) ==>
        (UrlIn(AsNodes(sections), p, policy) <==> ElementAt(sections, p) && UrlsPass(NodeAt(sections, p).value, policy))
    {
      PlaceIsPath(sections, p);
      if |p| == 1 && p[0] < |sections| {
        SectionUrlsPass(sections[p[0]], policy);
      }
    }
  }

  lemma SectionUrlsPass(section: DocumentSection, policy: UrlPolicy)
    ensures UrlsPass(AsNode(section), policy)
  {
  }

  lemma FullMainsOfOne(mains: seq<Node>)
    requires |mains| == 1
    ensures FullMains(mains) > 0 <==> mains[0].Element? && mains[0].children != []
  {
    assert mains[1..] == [];
  }

  lemma MainIsOne(doc: Document, policy: UrlPolicy)
    ensures HasOneFullMain(BodyElements(doc.sections)) <==> MainAllowed(doc.sections)
  {
    var one := Contribution(doc.assetIds, policy);
    var order, all := DocumentListed(doc, policy);
    ContributionCounts(doc.assetIds, policy);
    DocumentMainsCounted(doc.sections, one);
    SumMains(order, doc.assetIds, policy);
    MainsIff(doc.sections, order, all);
    if |MainNodes(BodyElements(doc.sections))| == 1 {
      FullMainsOfOne(MainNodes(BodyElements(doc.sections)));
    }
  }

  lemma FreshIsUnique(ids: multiset<string>)
    ensures Fresh(ids, {}) <==> Unique(ids)
  {
  }

  /** The serializer's own conditions, by recursion and multisets, say the same as those place by place. */
  lemma SerializesIff(doc: Document, policy: UrlPolicy)
    ensures HasOneFullMain(BodyElements(doc.sections)) && CanPrint(BodyElements(doc.sections), policy)
      <==> Serializes(doc.sections, policy)
  {
    hide HasOneFullMain, MainAllowed, AllPrintable, Fresh, Unique, Once, UrlsIn;
    MainIsOne(doc, policy);
    SectionsPrint(doc.sections, policy);
    SectionIdsPrint(doc.sections);
    ForestPrintable(AsNodes(doc.sections), policy);
    IdsOfForest(AsNodes(doc.sections));
    FreshIsUnique(AllPrintedIds(BodyElements(doc.sections)));
    PlacesPrint(doc.sections, policy);
  }

  /** Serialization never throws on a document that the schema accepts. */
  lemma AcceptedDocumentsSerialize(doc: Document, policy: UrlPolicy)
    requires Acceptable(doc, policy)
    ensures Serializes(doc.sections, policy)
  {
    hide HeadingsAllowed, LandmarksAllowed, MainAllowed, NodeAt;
    forall p | PrintedAt(doc.sections, p) ensures ElementAt(doc.sections, p) && UrlsPass(NodeAt(doc.sections, p).value, policy) {
      PrintedIsThere(doc.sections, p);
      AllowedPasses(doc, policy, p);
    }
  }

  lemma PrintedIsThere(sections: seq<DocumentSection>, p: Place)
    requires PrintedAt(sections, p)
    ensures ElementAt(sections, p)
  {
    PrintedIsElement(sections[p[0]].elements, p[1..]);
  }

  lemma AllowedPasses(doc: Document, policy: UrlPolicy, p: Place)
    requires ElementAt(doc.sections, p) && ElementAllowed(doc, policy, p)
    ensures UrlsPass(NodeAt(doc.sections, p).value, policy)
  {
    hide NodeAt, ParentTag;
  }
}
