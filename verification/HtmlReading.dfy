/** What printed markup says about the nodes it was printed from, field by field. */
module HtmlReading {
  import opened Basics
  import opened HtmlTree
  import opened HtmlSerializer
  import opened HtmlRoundTrip
  import opened HtmlDocumentParts
  import opened HtmlPrinting

  // ---------------------------------------------------------------- how an element looks in markup

  predicate NamedFor(tag: Tag, name: string) {
    match tag
    case Article => name == "article" case Section => name == "section" case Header => name == "header"
    case Footer => name == "footer" case Main => name == "main" case Aside => name == "aside" case Nav => name == "nav"
    case P => name == "p" case Blockquote => name == "blockquote" case Figure => name == "figure"
    case Figcaption => name == "figcaption" case Thead => name == "thead" case Tbody => name == "tbody"
    case Tr => name == "tr" case Th => name == "th" case Td => name == "td" case Li => name == "li" case Hr => name == "hr"
    case Img => name == "img" case A => name == "a" case H1 => name == "h1" case H2 => name == "h2" case H3 => name == "h3"
    case H4 => name == "h4" case H5 => name == "h5" case H6 => name == "h6" case Ul => name == "ul" case Ol => name == "ol"
    case Table => name == "table"
  }

  type Field = (string, Option<string>)

  /** Every field of an element that can become an attribute, under the attribute's name, in the order of printing. */
  function Fields(n: Node, classText: Option<string>): (fields: seq<Field>)
    requires n.Element?
    ensures |fields| == 22
  {
    var a := n.attributes;
    [("id", n.id), ("class", classText), ("role", n.role), ("aria-label", n.ariaLabel), ("aria-labelledby", a.ariaLabelledBy),
     ("aria-describedby", a.ariaDescribedBy), ("href", a.href), ("src", a.src), ("alt", a.alt), ("title", a.title),
     ("target", a.target), ("rel", a.rel), ("scope", a.scope), ("colspan", a.colspan), ("rowspan", a.rowspan),
     ("loading", a.loading), ("decoding", a.decoding), ("referrerpolicy", a.referrerpolicy),
     ("data-publication-block", a.publicationBlock), ("data-reference-id", a.referenceId),
     ("data-citation-id", a.citationId), ("data-footnote-id", a.footnoteId)]
  }

  /** Only an id may be empty. */
  predicate Filled(field: Field) {
    field.1 != None && (field.0 == "id" || field.1 != Some(""))
  }

  function FilledOf(fields: seq<Field>): seq<(string, string)> {
    if fields == [] then []
    else (if Filled(fields[0]) then [(fields[0].0, fields[0].1.value)] else []) + FilledOf(fields[1..])
  }

  /** The markup shows the element: its tag under its name, its filled fields in order and no other attribute, and its
      children, which a rule or an image has none of. */
  ghost predicate Shows(n: Node, m: Markup, classOf: Node -> Option<string>)
    decreases n, 0
  {
    match n
    case Text(_) => false
    case Element(_, _, tag, _, _, _, _, children) =>
      && m.MElement? && NamedFor(tag, m.name) && m.attributes == FilledOf(Fields(n, classOf(n)))
      && if tag in {Hr, Img} then m.children == [] else ShowsAll(children, "", m.children, classOf)
  }

  /** The markups show the nodes one by one, where texts without an element between them show as one and empty ones not at
      all; `pending` is the text already seen. */
  ghost predicate ShowsAll(ns: seq<Node>, pending: string, ms: seq<Markup>, classOf: Node -> Option<string>)
    decreases ns, 1
  {
    if ns == [] then ms == Flush(pending)
    else
      match ns[0]
      case Text(t) => ShowsAll(ns[1..], pending + t, ms, classOf)
      case Element(_, _, _, _, _, _, _, _) =>
        var k := |Flush(pending)|;
        && k < |ms| && ms[..k] == Flush(pending) && Shows(ns[0], ms[k], classOf) && ShowsAll(ns[1..], "", ms[k + 1..], classOf)
  }

  // ---------------------------------------------------------------- the serializer's own tables say the same

  lemma TagIsNamed(tag: Tag)
    ensures NamedFor(tag, TagName(tag))
  {
  }

  lemma FieldIs(n: Node, classOf: Node -> Option<string>, i: nat)
    requires n.Element? && i < 22
    ensures |CONTROLLED_ATTRIBUTE_ORDER| == 22 && CONTROLLED_ATTRIBUTE_ORDER[i] == Fields(n, classOf(n))[i].0
    ensures var (name, value) := Fields(n, classOf(n))[i];
      Controlled(n, classOf, name) == if Filled((name, value)) then value else None
  {
    if i < 8 {
      EarlyFieldIs(n, classOf, i);
    } else if i < 15 {
      MiddleFieldIs(n, classOf, i);
    } else {
      LateFieldIs(n, classOf, i);
    }
  }

  lemma EarlyFieldIs(n: Node, classOf: Node -> Option<string>, i: nat)
    requires n.Element? && i < 8
    ensures CONTROLLED_ATTRIBUTE_ORDER[i] == Fields(n, classOf(n))[i].0
    ensures var (name, value) := Fields(n, classOf(n))[i];
      Controlled(n, classOf, name) == if Filled((name, value)) then value else None
  {
  }

  lemma MiddleFieldIs(n: Node, classOf: Node -> Option<string>, i: nat)
    requires n.Element? && 8 <= i < 15
    ensures CONTROLLED_ATTRIBUTE_ORDER[i] == Fields(n, classOf(n))[i].0
    ensures var (name, value) := Fields(n, classOf(n))[i];
      Controlled(n, classOf, name) == if Filled((name, value)) then value else None
  {
  }

  lemma LateFieldIs(n: Node, classOf: Node -> Option<string>, i: nat)
    requires n.Element? && 15 <= i < 22
    ensures CONTROLLED_ATTRIBUTE_ORDER[i] == Fields(n, classOf(n))[i].0
    ensures var (name, value) := Fields(n, classOf(n))[i];
      Controlled(n, classOf, name) == if Filled((name, value)) then value else None
  {
  }

  lemma {:induction false} EntriesAreFilled(n: Node, classOf: Node -> Option<string>, i: nat)
    requires n.Element? && i <= 22 && |CONTROLLED_ATTRIBUTE_ORDER| == 22
    ensures Entries(n, classOf, CONTROLLED_ATTRIBUTE_ORDER[i..]) == FilledOf(Fields(n, classOf(n))[i..])
    decreases 22 - i
  {
    hide Controlled, Fields;
    var fields := Fields(n, classOf(n));
    if i < 22 {
      EntriesAreFilled(n, classOf, i + 1);
      FieldIs(n, classOf, i);
      assert CONTROLLED_ATTRIBUTE_ORDER[i..][1..] == CONTROLLED_ATTRIBUTE_ORDER[i + 1..] && fields[i..][1..] == fields[i + 1..];
    }
  }

  // ---------------------------------------------------------------- what is read shows the nodes

  lemma {:induction false} RenderedShows(n: Node, classOf: Node -> Option<string>)
    requires n.Element?
    ensures var m := Render(n, Style(classOf, CONTROLLED_ATTRIBUTE_ORDER));
      m.MElement? && Shows(n, MElement(m.name, m.attributes, Merge(m.children, "")), classOf)
    decreases n, 0
  {
    hide Entries, TagName, NamedFor, Fields;
    TagIsNamed(n.tag);
    EntriesAreFilled(n, classOf, 0);
    assert CONTROLLED_ATTRIBUTE_ORDER[0..] == CONTROLLED_ATTRIBUTE_ORDER && Fields(n, classOf(n))[0..] == Fields(n, classOf(n));
    if IsVoid(n.tag) {
      assert Merge([], "") == [];
    } else {
      MergedShows(n.children, "", classOf);
    }
  }

  lemma {:induction false} MergedShows(ns: seq<Node>, pending: string, classOf: Node -> Option<string>)
    ensures ShowsAll(ns, pending, Merge(RenderAll(ns, Style(classOf, CONTROLLED_ATTRIBUTE_ORDER)), pending), classOf)
    decreases ns, 1
  {
    hide Shows, Entries, TagName;
    if ns != [] {
      var style := Style(classOf, CONTROLLED_ATTRIBUTE_ORDER);
      var tree := RenderAll(ns, style);
      assert tree[0] == Render(ns[0], style) && tree[1..] == RenderAll(ns[1..], style);
      match ns[0]
      case Text(t) => MergedShows(ns[1..], pending + t, classOf);
      case Element(_, _, _, _, _, _, _, _) =>
        RenderedShows(ns[0], classOf);
        MergedShows(ns[1..], "", classOf);
        var m, rest := tree[0], Merge(tree[1..], "");
        var shown := [MElement(m.name, m.attributes, Merge(m.children, ""))];
        assert Merge(tree, pending) == Flush(pending) + shown + rest;
        assert (Flush(pending) + shown + rest)[|Flush(pending)| + 1..] == rest;
        assert (Flush(pending) + shown + rest)[..|Flush(pending)|] == Flush(pending);
    }
  }

  /** Whatever texts and attribute values a document holds, its printed body can be read with nothing left over, and what is
      read shows its nodes. */
  lemma BodyReadsBack(nodes: seq<Node>, classOf: Node -> Option<string>)
    ensures var read := ReadAll(PrintAll(RenderAll(nodes, Style(classOf, CONTROLLED_ATTRIBUTE_ORDER))));
      read.Some? && read.value.1 == "" && ShowsAll(nodes, "", read.value.0, classOf)
  {
    hide ReadAll, ShowsAll;
    BodyReads(nodes, classOf);
    MergedShows(nodes, "", classOf);
  }

  // ---------------------------------------------------------------- nodes that no reader can tell apart

  /** The same filled value in every field. */
  ghost predicate SameFields(m: Node, n: Node, classOf: Node -> Option<string>)
    requires m.Element? && n.Element?
  {
    var a, b := m.attributes, n.attributes;
    && m.id == n.id && SameValue(classOf(m), classOf(n)) && SameValue(m.role, n.role) && SameValue(m.ariaLabel, n.ariaLabel)
    && SameValue(a.ariaLabelledBy, b.ariaLabelledBy) && SameValue(a.ariaDescribedBy, b.ariaDescribedBy)
    && SameValue(a.href, b.href) && SameValue(a.src, b.src) && SameValue(a.alt, b.alt) && SameValue(a.title, b.title)
    && SameValue(a.target, b.target) && SameValue(a.rel, b.rel) && SameValue(a.scope, b.scope)
    && SameValue(a.colspan, b.colspan) && SameValue(a.rowspan, b.rowspan) && SameValue(a.loading, b.loading)
    && SameValue(a.decoding, b.decoding) && SameValue(a.referrerpolicy, b.referrerpolicy)
    && SameValue(a.publicationBlock, b.publicationBlock) && SameValue(a.referenceId, b.referenceId)
    && SameValue(a.citationId, b.citationId) && SameValue(a.footnoteId, b.footnoteId)
  }

  /** Equal, or both missing or empty. */
  predicate SameValue(a: Option<string>, b: Option<string>) {
    a == b || (a in {None, Some("")} && b in {None, Some("")})
  }

  ghost predicate Alike(m: Node, n: Node, classOf: Node -> Option<string>)
    decreases m, 0, n
  {
    && m.Element? && n.Element? && m.tag == n.tag && SameFields(m, n, classOf)
    && (m.tag !in {Hr, Img} ==> AllAlike(m.children, "", n.children, "", classOf))
  }

  /** Elements alike in order, and between them texts that run together to the same. */
  ghost predicate AllAlike(ms: seq<Node>, p: string, ns: seq<Node>, q: string, classOf: Node -> Option<string>)
    decreases ms, 1, ns
  {
    if ms != [] && ms[0].Text? then AllAlike(ms[1..], p + ms[0].text, ns, q, classOf)
    else if ns != [] && ns[0].Text? then AllAlike(ms, p, ns[1..], q + ns[0].text, classOf)
    else
      && p == q && (ms == [] <==> ns == [])
      && (ms != [] ==> ns != [] && Alike(ms[0], ns[0], classOf) && AllAlike(ms[1..], "", ns[1..], "", classOf))
  }

  predicate Distinct(fields: seq<Field>) {
    forall i, k :: 0 <= i < k < |fields| ==> fields[i].0 != fields[k].0
  }

  predicate Agree(f: Field, g: Field) {
    Filled(f) == Filled(g) && (Filled(f) ==> f.1 == g.1)
  }

  lemma {:induction false} FilledName(fields: seq<Field>, name: string)
    requires forall i :: 0 <= i < |fields| ==> fields[i].0 != name
    ensures forall k :: 0 <= k < |FilledOf(fields)| ==> FilledOf(fields)[k].0 != name
  {
    if fields != [] {
      FilledName(fields[1..], name);
    }
  }

  lemma HeadFilled(fields: seq<Field>)
    requires fields != [] && Distinct(fields)
    ensures Filled(fields[0]) <==> FilledOf(fields) != [] && FilledOf(fields)[0].0 == fields[0].0
  {
    FilledName(fields[1..], fields[0].0);
    if !Filled(fields[0]) {
      assert FilledOf(fields) == FilledOf(fields[1..]);
    }
  }

  /** Under different names, the filled fields determine every field. */
  lemma {:induction false} FilledDetermines(f: seq<Field>, g: seq<Field>)
    requires |f| == |g| && Distinct(f) && (forall i :: 0 <= i < |f| ==> f[i].0 == g[i].0) && FilledOf(f) == FilledOf(g)
    ensures forall i :: 0 <= i < |f| ==> Agree(f[i], g[i])
  {
    if f != [] {
      var a, b := FilledOf(f), FilledOf(g);
      HeadFilled(f);
      HeadFilled(g);
      assert FilledOf(f[1..]) == FilledOf(g[1..]) by {
        if Filled(f[0]) {
          assert a[1..] == FilledOf(f[1..]) && b[1..] == FilledOf(g[1..]);
        } else {
          assert a == FilledOf(f[1..]) && b == FilledOf(g[1..]);
        }
      }
      FilledDetermines(f[1..], g[1..]);
      if Filled(f[0]) {
        assert a[0] == (f[0].0, f[0].1.value) && b[0] == (g[0].0, g[0].1.value);
      }
      forall i | 0 <= i < |f| ensures Agree(f[i], g[i]) {
        if i > 0 {
          assert f[i] == f[1..][i - 1] && g[i] == g[1..][i - 1];
        }
      }
    }
  }

  lemma FieldsDistinct(n: Node, classText: Option<string>)
    requires n.Element?
    ensures Distinct(Fields(n, classText))
  {
    var f := Fields(n, classText);
    forall i, k | 0 <= i < k < 22 ensures f[i].0 != f[k].0 {
      if i < 7 {
        EarlyNames(n, classText, i, k);
      } else if i < 14 {
        MiddleNames(n, classText, i, k);
      } else {
        LateNames(n, classText, i, k);
      }
    }
  }

  lemma EarlyNames(n: Node, classText: Option<string>, i: nat, k: nat)
    requires n.Element? && i < 7 && i < k < 22
    ensures Fields(n, classText)[i].0 != Fields(n, classText)[k].0
  {
  }

  lemma MiddleNames(n: Node, classText: Option<string>, i: nat, k: nat)
    requires n.Element? && 7 <= i < 14 && i < k < 22
    ensures Fields(n, classText)[i].0 != Fields(n, classText)[k].0
  {
  }

  lemma LateNames(n: Node, classText: Option<string>, i: nat, k: nat)
    requires n.Element? && 14 <= i < k < 22
    ensures Fields(n, classText)[i].0 != Fields(n, classText)[k].0
  {
  }

  ghost predicate AgreeAll(m: Node, n: Node, classOf: Node -> Option<string>)
    requires m.Element? && n.Element?
  {
    forall i :: 0 <= i < 22 ==> Agree(Fields(m, classOf(m))[i], Fields(n, classOf(n))[i])
  }

  lemma AgreeIsSame(f: Field, g: Field)
    requires Agree(f, g) && f.0 == g.0
    ensures SameValue(f.1, g.1) && (f.0 == "id" ==> f.1 == g.1)
  {
  }

  lemma AgreeAllSame(m: Node, n: Node, classOf: Node -> Option<string>)
    requires m.Element? && n.Element? && AgreeAll(m, n, classOf)
    ensures SameFields(m, n, classOf)
  {
    hide SameValue, Agree, Fields;
    var f, g := Fields(m, classOf(m)), Fields(n, classOf(n));
    FirstIsId(m, classOf(m));
    EarlyValues(m, classOf(m));
    SecondValues(m, classOf(m));
    MiddleValues(m, classOf(m));
    LateValues(m, classOf(m));
    EarlyValues(n, classOf(n));
    SecondValues(n, classOf(n));
    MiddleValues(n, classOf(n));
    LateValues(n, classOf(n));
    SameNames(m, classOf(m), n, classOf(n));
    forall i | 0 <= i < 22 ensures SameValue(f[i].1, g[i].1) && (i == 0 ==> f[i].1 == g[i].1) {
      AgreeIsSame(f[i], g[i]);
    }
  }

  lemma EarlyValues(n: Node, classText: Option<string>)
    requires n.Element?
    ensures var f, a := Fields(n, classText), n.attributes;
      && f[0].1 == n.id && f[1].1 == classText && f[2].1 == n.role && f[3].1 == n.ariaLabel
  {
  }

  lemma SecondValues(n: Node, classText: Option<string>)
    requires n.Element?
    ensures var f, a := Fields(n, classText), n.attributes;
      && f[4].1 == a.ariaLabelledBy && f[5].1 == a.ariaDescribedBy && f[6].1 == a.href && f[7].1 == a.src
  {
  }

  lemma FirstIsId(n: Node, classText: Option<string>)
    requires n.Element?
    ensures Fields(n, classText)[0].0 == "id"
  {
  }

  lemma MiddleValues(n: Node, classText: Option<string>)
    requires n.Element?
    ensures var f, a := Fields(n, classText), n.attributes;
      && f[8].1 == a.alt && f[9].1 == a.title && f[10].1 == a.target && f[11].1 == a.rel && f[12].1 == a.scope
      && f[13].1 == a.colspan && f[14].1 == a.rowspan
  {
  }

  lemma LateValues(n: Node, classText: Option<string>)
    requires n.Element?
    ensures var f, a := Fields(n, classText), n.attributes;
      && f[15].1 == a.loading && f[16].1 == a.decoding && f[17].1 == a.referrerpolicy && f[18].1 == a.publicationBlock
      && f[19].1 == a.referenceId && f[20].1 == a.citationId && f[21].1 == a.footnoteId
  {
  }

  lemma SameNames(m: Node, c: Option<string>, n: Node, d: Option<string>)
    requires m.Element? && n.Element?
    ensures forall i :: 0 <= i < 22 ==> Fields(m, c)[i].0 == Fields(n, d)[i].0
  {
  }

  lemma FieldsDetermine(m: Node, n: Node, classOf: Node -> Option<string>)
    requires m.Element? && n.Element? && FilledOf(Fields(m, classOf(m))) == FilledOf(Fields(n, classOf(n)))
    ensures SameFields(m, n, classOf)
  {
    hide FilledOf, Distinct, SameFields;
    FieldsDistinct(m, classOf(m));
    FilledDetermines(Fields(m, classOf(m)), Fields(n, classOf(n)));
    AgreeAllSame(m, n, classOf);
  }

  lemma TagsNamedApart(s: Tag, t: Tag, name: string)
    requires NamedFor(s, name) && NamedFor(t, name)
    ensures s == t
  {
  }

  lemma {:induction false} ShownAlike(m: Node, n: Node, shown: Markup, classOf: Node -> Option<string>)
    requires Shows(m, shown, classOf) && Shows(n, shown, classOf)
    ensures Alike(m, n, classOf)
    decreases m, 0, n
  {
    hide NamedFor, Fields, FilledOf, SameFields;
    TagsNamedApart(m.tag, n.tag, shown.name);
    FieldsDetermine(m, n, classOf);
    if m.tag !in {Hr, Img} {
      AllShownAlike(m.children, "", n.children, "", shown.children, classOf);
    }
  }

  lemma {:induction false} AllShownAlike(ms: seq<Node>, p: string, ns: seq<Node>, q: string, shown: seq<Markup>,
                                         classOf: Node -> Option<string>)
    requires ShowsAll(ms, p, shown, classOf) && ShowsAll(ns, q, shown, classOf)
    ensures AllAlike(ms, p, ns, q, classOf)
    decreases ms, 1, ns
  {
    hide Alike;
    if ms != [] && ms[0].Text? {
      AllShownAlike(ms[1..], p + ms[0].text, ns, q, shown, classOf);
    } else if ns != [] && ns[0].Text? {
      AllShownAlike(ms, p, ns[1..], q + ns[0].text, shown, classOf);
    } else {
      SamePending(ms, p, ns, q, shown, classOf);
      if ms != [] {
        var k := |Flush(p)|;
        ShownAlike(ms[0], ns[0], shown[k], classOf);
        AllShownAlike(ms[1..], "", ns[1..], "", shown[k + 1..], classOf);
      }
    }
  }

  lemma SamePending(ms: seq<Node>, p: string, ns: seq<Node>, q: string, shown: seq<Markup>, classOf: Node -> Option<string>)
    requires ShowsAll(ms, p, shown, classOf) && ShowsAll(ns, q, shown, classOf)
    requires (ms != [] ==> ms[0].Element?) && (ns != [] ==> ns[0].Element?)
    ensures p == q && (ms == [] <==> ns == [])
  {
    hide Fields, FilledOf, NamedFor;
  }

  /** Two documents with the same body markup hold the same nodes: the same elements with the same tags, the same filled
      fields and the same children in the same order, and between them the same text. */
  lemma BodyDeterminesTree(a: seq<Node>, b: seq<Node>, classOf: Node -> Option<string>)
    requires var style := Style(classOf, CONTROLLED_ATTRIBUTE_ORDER); PrintAll(RenderAll(a, style)) == PrintAll(RenderAll(b, style))
    ensures AllAlike(a, "", b, "", classOf)
  {
    hide ReadAll, ShowsAll, AllAlike;
    BodyReadsBack(a, classOf);
    BodyReadsBack(b, classOf);
    AllShownAlike(a, "", b, "", ReadAll(PrintAll(RenderAll(a, Style(classOf, CONTROLLED_ATTRIBUTE_ORDER)))).value.0, classOf);
  }

  lemma NothingPrints(policy: UrlPolicy, style: Style)
    ensures CanPrint([], policy) && PrintAll(RenderAll([], style)) == "" && Keys(AllPrintedIds([])) == {}
  {
  }

  /** One document: throws unless there is one non-empty main, every URL passes and every id is new; prints the body. */
  method SerializeDocumentParts(serializer: HtmlMarkupSerializer, doc: Document) returns (bodyHtml: Option<string>)
    modifies serializer
    ensures bodyHtml.Some? <==> Serializes(doc.sections, serializer.policy)
    ensures bodyHtml.Some? ==> bodyHtml.value == PrintAll(RenderAll(BodyElements(doc.sections), serializer.style))
    ensures bodyHtml.Some? && serializer.style.order == CONTROLLED_ATTRIBUTE_ORDER ==>
      var read := ReadAll(bodyHtml.value);
      read.Some? && read.value.1 == "" && ShowsAll(BodyElements(doc.sections), "", read.value.0, serializer.style.classOf)
  {
    hide Serializes, ReadAll, ShowsAll, CanPrint, PrintAll, RenderAll, AllPrintable, MainNodes;
    NothingPrints(serializer.policy, serializer.style);
    SerializesIff(doc, serializer.policy);
    BodyReadsBack(BodyElements(doc.sections), serializer.style.classOf);
    serializer.idSet := {};
    var mains := MainNodes(BodyElements(doc.sections));
    if |mains| != 1 || mains[0].Text? || mains[0].children == [] {
      return None;
    }
    var html := "";
    for i := 0 to |doc.sections|
      invariant CanPrint(BodyElements(doc.sections[..i]), serializer.policy)
      invariant serializer.idSet == Keys(AllPrintedIds(BodyElements(doc.sections[..i])))
      invariant html == PrintAll(RenderAll(BodyElements(doc.sections[..i]), serializer.style))
    {
      ghost var done := BodyElements(doc.sections[..i]);
      SplitBody(doc.sections, i);
      CanPrintSplits(done + doc.sections[i].elements, BodyElements(doc.sections[i + 1..]), serializer.policy);
      var printed := SerializeSection(serializer, done, doc.sections[i].elements);
      if printed.None? {
        return None;
      }
      html := html + printed.value;
    }
    assert doc.sections[..|doc.sections|] == doc.sections;
    bodyHtml := Some(html);
  }
}
