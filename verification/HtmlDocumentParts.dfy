/** Serializing a whole document: it never throws on an accepted one, and the body can be read back. */
module HtmlDocumentParts {
  import opened Basics
  import opened HtmlTree
  import opened HtmlValidator
  import opened HtmlSchema
  import opened HtmlSerializer
  import opened HtmlRoundTrip

  function BodyElements(sections: seq<DocumentSection>): seq<Node> {
    if sections == [] then [] else sections[0].elements + BodyElements(sections[1..])
  }

  /** Every main element, in document order. */
  function MainNodes(ns: seq<Node>): seq<Node> {
    if ns == [] then []
    else (match ns[0]
          case Text(_) => []
          case Element(_, _, tag, _, _, _, _, children) => (if tag.Main? then [ns[0]] else []) + MainNodes(children))
         + MainNodes(ns[1..])
  }

  predicate HasOneFullMain(ns: seq<Node>) {
    |MainNodes(ns)| == 1 && MainNodes(ns)[0].Element? && MainNodes(ns)[0].children != []
  }

  lemma {:induction false} RenderAppend(a: seq<Node>, b: seq<Node>, style: Style)
    ensures RenderAll(a + b, style) == RenderAll(a, style) + RenderAll(b, style)
  {
    if a == [] {
      assert a + b == b;
    } else {
      assert (a + b)[1..] == a[1..] + b;
      RenderAppend(a[1..], b, style);
    }
  }

  lemma {:induction false} PrintAppend(a: seq<Markup>, b: seq<Markup>)
    ensures PrintAll(a + b) == PrintAll(a) + PrintAll(b)
  {
    if a == [] {
      assert a + b == b;
    } else {
      assert (a + b)[1..] == a[1..] + b;
      PrintAppend(a[1..], b);
    }
  }

  lemma {:induction false} PrintableAppend(a: seq<Node>, b: seq<Node>, policy: UrlPolicy)
    ensures AllPrintable(a + b, policy) <==> AllPrintable(a, policy) && AllPrintable(b, policy)
  {
    if a == [] {
      assert a + b == b;
    } else {
      assert (a + b)[1..] == a[1..] + b;
      PrintableAppend(a[1..], b, policy);
    }
  }

  lemma {:induction false} IdsAppend(a: seq<Node>, b: seq<Node>)
    ensures AllPrintedIds(a + b) == AllPrintedIds(a) + AllPrintedIds(b)
  {
    if a == [] {
      assert a + b == b;
    } else {
      assert (a + b)[1..] == a[1..] + b;
      IdsAppend(a[1..], b);
    }
  }

  ghost predicate CanPrint(ns: seq<Node>, policy: UrlPolicy) {
    AllPrintable(ns, policy) && Fresh(AllPrintedIds(ns), {})
  }

  lemma CanPrintSplits(a: seq<Node>, b: seq<Node>, policy: UrlPolicy)
    ensures CanPrint(a + b, policy)
      <==> CanPrint(a, policy) && AllPrintable(b, policy) && Fresh(AllPrintedIds(b), Keys(AllPrintedIds(a)))
    ensures Keys(AllPrintedIds(a + b)) == Keys(AllPrintedIds(a)) + Keys(AllPrintedIds(b))
  {
    PrintableAppend(a, b, policy);
    IdsAppend(a, b);
    FreshSplits(AllPrintedIds(a), AllPrintedIds(b), {});
    assert {} + Keys(AllPrintedIds(a)) == Keys(AllPrintedIds(a));
    assert {} + Keys(AllPrintedIds(a + b)) == Keys(AllPrintedIds(a + b));
  }

  /** Prints the elements of one more section after those already done. */
  method SerializeSection(serializer: HtmlMarkupSerializer, ghost done: seq<Node>, elements: seq<Node>) returns (html: Option<string>)
    requires CanPrint(done, serializer.policy) && serializer.idSet == Keys(AllPrintedIds(done))
    modifies serializer
    ensures html.Some? <==> CanPrint(done + elements, serializer.policy)
    ensures html.Some? ==> serializer.idSet == Keys(AllPrintedIds(done + elements))
    ensures html.Some? ==>
      PrintAll(RenderAll(done + elements, serializer.style)) == PrintAll(RenderAll(done, serializer.style)) + html.value
  {
    CanPrintSplits(done, elements, serializer.policy);
    RenderAppend(done, elements, serializer.style);
    PrintAppend(RenderAll(done, serializer.style), RenderAll(elements, serializer.style));
    html := serializer.SerializeAll(elements);
  }

  lemma {:induction false} BodyAppend(a: seq<DocumentSection>, b: seq<DocumentSection>)
    ensures BodyElements(a + b) == BodyElements(a) + BodyElements(b)
  {
    if a == [] {
      assert a + b == b;
    } else {
      assert (a + b)[1..] == a[1..] + b;
      BodyAppend(a[1..], b);
    }
  }

  lemma BodyOfOne(section: DocumentSection)
    ensures BodyElements([section]) == section.elements
  {
    assert [section][1..] == [];
    assert section.elements + [] == section.elements;
  }

  lemma SplitBody(sections: seq<DocumentSection>, i: nat)
    requires i < |sections|
    ensures BodyElements(sections[..i + 1]) == BodyElements(sections[..i]) + sections[i].elements
    ensures BodyElements(sections) == (BodyElements(sections[..i]) + sections[i].elements) + BodyElements(sections[i + 1..])
  {
    var before, one, after := sections[..i], [sections[i]], sections[i + 1..];
    assert sections[..i + 1] == before + one;
    assert sections == (before + one) + after;
    BodyOfOne(sections[i]);
    BodyAppend(before, one);
    BodyAppend(before + one, after);
  }

  // ---------------------------------------------------------------- main elements counted

  function FullMains(ns: seq<Node>): nat {
    if ns == [] then 0 else (if ns[0].Element? && ns[0].children != [] then 1 else 0) + FullMains(ns[1..])
  }

  lemma {:induction false} FullMainsAppend(a: seq<Node>, b: seq<Node>)
    ensures FullMains(a + b) == FullMains(a) + FullMains(b)
  {
    if a == [] {
      assert a + b == b;
    } else {
      assert (a + b)[1..] == a[1..] + b;
      FullMainsAppend(a[1..], b);
    }
  }

  lemma {:induction false} MainsAppend(a: seq<Node>, b: seq<Node>)
    ensures MainNodes(a + b) == MainNodes(a) + MainNodes(b)
  {
    if a == [] {
      assert a + b == b;
    } else {
      assert (a + b)[1..] == a[1..] + b && (a + b)[0] == a[0];
      MainsAppend(a[1..], b);
    }
  }

  /** The main elements of one element: itself, if it is one, and those below it. */
  lemma FullMainsOf(n: Node, rest: seq<Node>)
    requires n.Element?
    ensures var below := MainNodes(n.children);
            FullMains((if n.tag.Main? then [n] else []) + below + rest) ==
            (if n.tag.Main? && n.children != [] then 1 else 0) + FullMains(below) + FullMains(rest)
  {
    var own, below := if n.tag.Main? then [n] else [], MainNodes(n.children);
    FullMainsAppend(own + below, rest);
    FullMainsAppend(own, below);
    assert [n][1..] == [];
  }

  lemma FirstMains(ns: seq<Node>)
    requires ns != [] && ns[0].Element?
    ensures MainNodes(ns) == (if ns[0].tag.Main? then [ns[0]] else []) + MainNodes(ns[0].children) + MainNodes(ns[1..])
  {
  }

  lemma ForestMains(ns: seq<Node>, depth: nat, parent: Option<Tag>, one: Item -> Summary)
    requires CountsMains(one) && ns != [] && ns[0].Element?
    ensures var below := ForestSum(ns[0].children, depth + 1, Some(ns[0].tag), one);
            var after, all := ForestSum(ns[1..], depth, parent, one), ForestSum(ns, depth, parent, one);
            && all.mains == (if ns[0].tag.Main? then 1 else 0) + below.mains + after.mains
            && all.fullMains == (if ns[0].tag.Main? && ns[0].children != [] then 1 else 0) + below.fullMains + after.fullMains
  {
    var item := Item(ns[0], depth, parent);
    assert one(item).mains == (if ns[0].tag.Main? then 1 else 0);
  }

  /** One step of the count: the first element adds itself, if it is a main element, to what is below it and after it. */
  lemma FirstMainsCounted(ns: seq<Node>, depth: nat, parent: Option<Tag>, one: Item -> Summary)
    requires CountsMains(one) && ns != [] && ns[0].Element?
    requires var below := ForestSum(ns[0].children, depth + 1, Some(ns[0].tag), one);
             |MainNodes(ns[0].children)| == below.mains && FullMains(MainNodes(ns[0].children)) == below.fullMains
    requires var after := ForestSum(ns[1..], depth, parent, one);
             |MainNodes(ns[1..])| == after.mains && FullMains(MainNodes(ns[1..])) == after.fullMains
    ensures |MainNodes(ns)| == ForestSum(ns, depth, parent, one).mains
    ensures FullMains(MainNodes(ns)) == ForestSum(ns, depth, parent, one).fullMains
  {
    hide FullMains, MainNodes;
    var n := ns[0];
    ForestMains(ns, depth, parent, one);
    FullMainsOf(n, MainNodes(ns[1..]));
    FirstMains(ns);
  }

  lemma {:induction false} MainsCounted(ns: seq<Node>, depth: nat, parent: Option<Tag>, one: Item -> Summary)
    requires CountsMains(one)
    ensures |MainNodes(ns)| == ForestSum(ns, depth, parent, one).mains
    ensures FullMains(MainNodes(ns)) == ForestSum(ns, depth, parent, one).fullMains
  {
    if ns != [] {
      MainsCounted(ns[1..], depth, parent, one);
      if ns[0].Element? {
        MainsCounted(ns[0].children, depth + 1, Some(ns[0].tag), one);
        FirstMainsCounted(ns, depth, parent, one);
      } else {
        assert MainNodes(ns) == MainNodes(ns[1..]);
      }
    }
  }

  ghost predicate CountsMains(one: Item -> Summary) {
    forall item: Item :: item.node.Element? ==>
      && one(item).mains == (if item.node.tag.Main? then 1 else 0)
      && one(item).fullMains == (if item.node.tag.Main? && item.node.children != [] then 1 else 0)
  }

  lemma ContributionCounts(assetIds: set<string>, policy: UrlPolicy)
    ensures CountsMains(Contribution(assetIds, policy))
  {
  }

  lemma {:induction false} DocumentMainsCounted(sections: seq<DocumentSection>, one: Item -> Summary)
    requires CountsMains(one)
    ensures |MainNodes(BodyElements(sections))| == DocumentSum(sections, one).mains
    ensures FullMains(MainNodes(BodyElements(sections))) == DocumentSum(sections, one).fullMains
  {
    if sections != [] {
      var first, rest := sections[0].elements, BodyElements(sections[1..]);
      DocumentMainsCounted(sections[1..], one);
      MainsCounted(first, 1, None, one);
      MainsAppend(first, rest);
      FullMainsAppend(MainNodes(first), MainNodes(rest));
    }
  }

  // ---------------------------------------------------------------- the body reads back

  /** Nothing but letters, digits and hyphens. */
  predicate IsWord(name: string) {
    name != "" && forall i :: 0 <= i < |name| ==> 'a' <= name[i] <= 'z' || '0' <= name[i] <= '9' || name[i] == '-'
  }

  lemma WordsAreClean(name: string)
    requires IsWord(name)
    ensures CleanName(name)
  {
  }

  lemma TagNamesAreWords(tag: Tag)
    ensures IsWord(TagName(tag))
  {
  }

  lemma TagNamesAreClean(tag: Tag)
    ensures CleanName(TagName(tag))
  {
    TagNamesAreWords(tag);
    WordsAreClean(TagName(tag));
  }

  lemma FirstNamesAreWords(i: nat)
    requires i < 8
    ensures IsWord(CONTROLLED_ATTRIBUTE_ORDER[i])
  {
  }

  lemma MiddleNamesAreWords(i: nat)
    requires 8 <= i < 16
    ensures IsWord(CONTROLLED_ATTRIBUTE_ORDER[i])
  {
  }

  lemma LastNamesAreWords(i: nat)
    requires 16 <= i < |CONTROLLED_ATTRIBUTE_ORDER|
    ensures IsWord(CONTROLLED_ATTRIBUTE_ORDER[i])
  {
  }

  lemma ControlledNamesAreClean()
    ensures forall i :: 0 <= i < |CONTROLLED_ATTRIBUTE_ORDER| ==> CleanName(CONTROLLED_ATTRIBUTE_ORDER[i])
  {
    forall i | 0 <= i < |CONTROLLED_ATTRIBUTE_ORDER| ensures CleanName(CONTROLLED_ATTRIBUTE_ORDER[i]) {
      if i < 8 {
        FirstNamesAreWords(i);
      } else if i < 16 {
        MiddleNamesAreWords(i);
      } else {
        LastNamesAreWords(i);
      }
      WordsAreClean(CONTROLLED_ATTRIBUTE_ORDER[i]);
    }
  }

  lemma {:induction false} EntriesAreClean(n: Node, classOf: Node -> Option<string>, names: seq<string>)
    requires n.Element? && forall i :: 0 <= i < |names| ==> CleanName(names[i])
    ensures CleanAttributes(Entries(n, classOf, names))
  {
    if names != [] {
      EntriesAreClean(n, classOf, names[1..]);
    }
  }

  lemma {:induction false} RenderedIsClean(n: Node, style: Style)
    requires forall i :: 0 <= i < |style.order| ==> CleanName(style.order[i])
    ensures Clean(Render(n, style))
    decreases n, 0
  {
    if n.Element? {
      TagNamesAreClean(n.tag);
      VoidNames(n.tag);
      EntriesAreClean(n, style.classOf, style.order);
      AllRenderedIsClean(n.children, style);
    }
  }

  lemma {:induction false} AllRenderedIsClean(ns: seq<Node>, style: Style)
    requires forall i :: 0 <= i < |style.order| ==> CleanName(style.order[i])
    ensures AllClean(RenderAll(ns, style))
    decreases ns, 1
  {
    if ns != [] {
      RenderedIsClean(ns[0], style);
      AllRenderedIsClean(ns[1..], style);
      assert RenderAll(ns, style)[1..] == RenderAll(ns[1..], style);
    }
  }

  /** The reader gets back the tree that was printed, with nothing left over. */
  lemma BodyReads(nodes: seq<Node>, classOf: Node -> Option<string>)
    ensures var tree := RenderAll(nodes, Style(classOf, CONTROLLED_ATTRIBUTE_ORDER));
      ReadAll(PrintAll(tree)) == Some((Merge(tree, ""), ""))
  {
    var style := Style(classOf, CONTROLLED_ATTRIBUTE_ORDER);
    var tree := RenderAll(nodes, style);
    ControlledNamesAreClean();
    AllRenderedIsClean(nodes, style);
    ReadsPrinted(tree, "", "");
    assert EscapeText("") + (PrintAll(tree) + "") == PrintAll(tree);
  }
}
