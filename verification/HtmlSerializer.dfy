/** The markup serializer: recursive printing with one shared set of ids, and every text and attribute value escaped. */
module HtmlSerializer {
  import opened Basics
  import opened HtmlTree
  import opened HtmlValidator

  // ---------------------------------------------------------------- escaping

  function EscapeTextChar(c: char): string {
    if c == '&' then "&amp;" else if c == '<' then "&lt;" else if c == '>' then "&gt;" else [c]
  }

  function EscapeAttributeChar(c: char): string {
    if c == '"' then "&quot;" else if c == '\'' then "&#39;" else EscapeTextChar(c)
  }

  function EscapeText(s: string): string {
    if s == "" then "" else EscapeTextChar(s[0]) + EscapeText(s[1..])
  }

  function EscapeAttribute(s: string): string {
    if s == "" then "" else EscapeAttributeChar(s[0]) + EscapeAttribute(s[1..])
  }

  // ---------------------------------------------------------------- markup as a tree and as a string

  /** What a reader of the markup sees: texts, and elements with their attributes in order. */
  datatype Markup =
    | MText(text: string)
    | MElement(name: string, attributes: seq<(string, string)>, children: seq<Markup>)

  function VoidName(name: string): bool {
    name == "hr" || name == "img"
  }

  function PrintAttributes(attributes: seq<(string, string)>): string {
    if attributes == [] then ""
    else " " + attributes[0].0 + "=\"" + EscapeAttribute(attributes[0].1) + "\"" + PrintAttributes(attributes[1..])
  }

  function Print(m: Markup): string
    decreases m, 0
  {
    match m
    case MText(t) => EscapeText(t)
    case MElement(name, attributes, children) =>
      var open := "<" + name + PrintAttributes(attributes) + ">";
      if VoidName(name) then open else open + PrintAll(children) + "</" + name + ">"
  }

  function PrintAll(ms: seq<Markup>): string
    decreases ms, 1
  {
    if ms == [] then "" else Print(ms[0]) + PrintAll(ms[1..])
  }

  // ---------------------------------------------------------------- from elements to markup

  function TagName(tag: Tag): string {
    match tag
    case Article => "article" case Section => "section" case Header => "header" case Footer => "footer"
    case Main => "main" case Aside => "aside" case Nav => "nav" case P => "p" case Blockquote => "blockquote"
    case Figure => "figure" case Figcaption => "figcaption" case Thead => "thead" case Tbody => "tbody"
    case Tr => "tr" case Th => "th" case Td => "td" case Li => "li" case Hr => "hr" case Img => "img" case A => "a"
    case H1 => "h1" case H2 => "h2" case H3 => "h3" case H4 => "h4" case H5 => "h5" case H6 => "h6"
    case Ul => "ul" case Ol => "ol" case Table => "table"
  }

  const CONTROLLED_ATTRIBUTE_ORDER: seq<string> := [
    "id", "class", "role", "aria-label", "aria-labelledby", "aria-describedby", "href", "src", "alt", "title", "target",
    "rel", "scope", "colspan", "rowspan", "loading", "decoding", "referrerpolicy", "data-publication-block",
    "data-reference-id", "data-citation-id", "data-footnote-id"]

  /** What printing depends on besides the element: its joined class names, and the order of attribute names. */
  datatype Style = Style(classOf: Node -> Option<string>, order: seq<string>)

  /** The value an element carries under a controlled name; an empty value counts as absent, except for the id. */
  function Controlled(n: Node, classOf: Node -> Option<string>, name: string): Option<string>
    requires n.Element?
  {
    var a := n.attributes;
    if name == "id" then n.id
    else NonEmpty(
      if name == "class" then classOf(n)
      else if name == "role" then n.role
      else if name == "aria-label" then n.ariaLabel
      else if name == "aria-labelledby" then a.ariaLabelledBy
      else if name == "aria-describedby" then a.ariaDescribedBy
      else if name == "href" then a.href
      else if name == "src" then a.src
      else if name == "alt" then a.alt
      else if name == "title" then a.title
      else if name == "target" then a.target
      else if name == "rel" then a.rel
      else if name == "scope" then a.scope
      else if name == "colspan" then a.colspan
      else if name == "rowspan" then a.rowspan
      else if name == "loading" then a.loading
      else if name == "decoding" then a.decoding
      else if name == "referrerpolicy" then a.referrerpolicy
      else if name == "data-publication-block" then a.publicationBlock
      else if name == "data-reference-id" then a.referenceId
      else if name == "data-citation-id" then a.citationId
      else if name == "data-footnote-id" then a.footnoteId
      else None)
  }

  function NonEmpty(value: Option<string>): Option<string> {
    if value == Some("") then None else value
  }

  /** The attributes that are present, in the given order of names. */
  function Entries(n: Node, classOf: Node -> Option<string>, names: seq<string>): seq<(string, string)>
    requires n.Element?
  {
    if names == [] then []
    else
      var value := Controlled(n, classOf, names[0]);
      (if value.Some? then [(names[0], value.value)] else []) + Entries(n, classOf, names[1..])
  }

  function Render(n: Node, style: Style): Markup
    decreases n, 0
  {
    match n
    case Text(t) => MText(t)
    case Element(_, _, tag, _, _, _, _, children) =>
      MElement(TagName(tag), Entries(n, style.classOf, style.order), if IsVoid(tag) then [] else RenderAll(children, style))
  }

  function RenderAll(ns: seq<Node>, style: Style): seq<Markup>
    decreases ns, 1
  {
    if ns == [] then [] else [Render(ns[0], style)] + RenderAll(ns[1..], style)
  }

  // ---------------------------------------------------------------- when serialization throws

  /** Every URL that would be printed passes the policy. */
  predicate Printable(n: Node, policy: UrlPolicy)
    decreases n, 0
  {
    match n
    case Text(_) => true
    case Element(_, _, tag, a, _, _, _, children) => PrintableUrls(tag, a, policy) && (IsVoid(tag) || AllPrintable(children, policy))
  }

  predicate PrintableUrls(tag: Tag, a: Attributes, policy: UrlPolicy) {
    && (NonEmpty(a.href).Some? ==>
          if IsInternal(a.href.value) then policy.internalHref(a.href.value) else policy.externalUrl(a.href.value))
    && (NonEmpty(a.src).Some? ==> if tag.Img? then policy.assetUrl(a.src.value) else policy.externalUrl(a.src.value))
  }

  predicate AllPrintable(ns: seq<Node>, policy: UrlPolicy)
    decreases ns, 1
  {
    ns == [] || (Printable(ns[0], policy) && AllPrintable(ns[1..], policy))
  }

  /** The ids that would be printed, with their multiplicities. */
  function PrintedIds(n: Node): multiset<string>
    decreases n, 0
  {
    match n
    case Text(_) => multiset{}
    case Element(_, id, tag, _, _, _, _, children) =>
      OwnId(id) + (if IsVoid(tag) then multiset{} else AllPrintedIds(children))
  }

  function OwnId(id: Option<string>): multiset<string> {
    if id.Some? then multiset{id.value} else multiset{}
  }

  function AllPrintedIds(ns: seq<Node>): multiset<string>
    decreases ns, 1
  {
    if ns == [] then multiset{} else PrintedIds(ns[0]) + AllPrintedIds(ns[1..])
  }

  /** All different, and different from the ids already used. */
  ghost predicate Fresh(ids: multiset<string>, used: set<string>) {
    forall x :: ids[x] <= (if x in used then 0 else 1)
  }

  function Keys(ids: multiset<string>): set<string> {
    set x | x in ids
  }

  lemma FreshSplits(a: multiset<string>, b: multiset<string>, used: set<string>)
    ensures Fresh(a + b, used) <==> Fresh(a, used) && Fresh(b, used + Keys(a))
    ensures used + Keys(a + b) == (used + Keys(a)) + Keys(b)
  {
    if Fresh(a + b, used) {
      forall x ensures a[x] <= (if x in used then 0 else 1) && b[x] <= (if x in used + Keys(a) then 0 else 1) {
        assert (a + b)[x] == a[x] + b[x];
      }
    }
    if Fresh(a, used) && Fresh(b, used + Keys(a)) {
      forall x ensures (a + b)[x] <= (if x in used then 0 else 1) {
        assert (a + b)[x] == a[x] + b[x];
      }
    }
  }

  /** What the ids and URLs of an element come to, part by part. */
  lemma ElementParts(n: Node, used: set<string>, policy: UrlPolicy)
    requires n.Element?
    ensures IsVoid(n.tag) ==>
      && (Printable(n, policy) <==> PrintableUrls(n.tag, n.attributes, policy))
      && (Fresh(PrintedIds(n), used) <==> Fresh(OwnId(n.id), used))
      && used + Keys(PrintedIds(n)) == used + Keys(OwnId(n.id))
    ensures !IsVoid(n.tag) ==>
      && (Printable(n, policy) <==> PrintableUrls(n.tag, n.attributes, policy) && AllPrintable(n.children, policy))
      && (Fresh(PrintedIds(n), used) <==> Fresh(OwnId(n.id), used) && Fresh(AllPrintedIds(n.children), used + Keys(OwnId(n.id))))
      && used + Keys(PrintedIds(n)) == (used + Keys(OwnId(n.id))) + Keys(AllPrintedIds(n.children))
  {
    if IsVoid(n.tag) {
      assert PrintedIds(n) == OwnId(n.id) + multiset{} == OwnId(n.id);
    } else {
      assert PrintedIds(n) == OwnId(n.id) + AllPrintedIds(n.children);
      FreshSplits(OwnId(n.id), AllPrintedIds(n.children), used);
    }
  }

  lemma PrintedElement(n: Node, style: Style)
    requires n.Element?
    ensures var open := "<" + TagName(n.tag) + PrintAttributes(Entries(n, style.classOf, style.order)) + ">";
      Print(Render(n, style))
      == if IsVoid(n.tag) then open else open + PrintAll(RenderAll(n.children, style)) + "</" + TagName(n.tag) + ">"
  {
    VoidNames(n.tag);
  }

  class HtmlMarkupSerializer {
    var idSet: set<string>
    const policy: UrlPolicy
    const style: Style

    constructor (policy: UrlPolicy, style: Style)
      ensures idSet == {} && this.policy == policy && this.style == style
    {
      idSet := {};
      this.policy := policy;
      this.style := style;
    }

    method UseId(id: Option<string>) returns (ok: bool)
      modifies this
      ensures ok <==> Fresh(OwnId(id), old(idSet))
      ensures ok ==> idSet == old(idSet) + Keys(OwnId(id))
    {
      if id.Some? {
        if id.value in idSet {
          assert OwnId(id)[id.value] == 1;
          return false;
        }
        idSet := idSet + {id.value};
      }
      return true;
    }

    /** Throws (None) exactly on an unsafe URL or an id used twice; otherwise prints the element's markup. */
    method SerializeNode(n: Node) returns (html: Option<string>)
      modifies this
      ensures html.Some? <==> Printable(n, policy) && Fresh(PrintedIds(n), old(idSet))
      ensures html.Some? ==> html.value == Print(Render(n, style)) && idSet == old(idSet) + Keys(PrintedIds(n))
      decreases n, 0
    {
      if n.Text? {
        return Some(EscapeText(n.text));
      }
      ElementParts(n, idSet, policy);
      PrintedElement(n, style);
      var unused := UseId(n.id);
      if !unused || !PrintableUrls(n.tag, n.attributes, policy) {
        return None;
      }
      var attributes := SerializeAttributes(n);
      var open := "<" + TagName(n.tag) + attributes + ">";
      if IsVoid(n.tag) {
        return Some(open);
      }
      var children := SerializeAll(n.children);
      if children.None? {
        return None;
      }
      return Some(open + children.value + "</" + TagName(n.tag) + ">");
    }

    method SerializeAll(ns: seq<Node>) returns (html: Option<string>)
      modifies this
      ensures html.Some? <==> AllPrintable(ns, policy) && Fresh(AllPrintedIds(ns), old(idSet))
      ensures html.Some? ==> html.value == PrintAll(RenderAll(ns, style)) && idSet == old(idSet) + Keys(AllPrintedIds(ns))
      decreases ns, 1
    {
      if ns == [] {
        return Some("");
      }
      FreshSplits(PrintedIds(ns[0]), AllPrintedIds(ns[1..]), idSet);
      var first := SerializeNode(ns[0]);
      if first.None? {
        return None;
      }
      var rest := SerializeAll(ns[1..]);
      if rest.None? {
        return None;
      }
      return Some(first.value + rest.value);
    }

    method SerializeAttributes(n: Node) returns (html: string)
      requires n.Element?
      ensures html == PrintAttributes(Entries(n, style.classOf, style.order))
    {
      html := "";
      for i := 0 to |style.order|
        invariant html + PrintAttributes(Entries(n, style.classOf, style.order[i..]))
          == PrintAttributes(Entries(n, style.classOf, style.order))
      {
        var key := style.order[i];
        var value := Controlled(n, style.classOf, key);
        assert style.order[i..][1..] == style.order[i + 1..];
        if value.Some? {
          var printed := " " + key + "=\"" + EscapeAttribute(value.value) + "\"";
          assert Entries(n, style.classOf, style.order[i..])[1..] == Entries(n, style.classOf, style.order[i + 1..]);
          html := html + printed;
        } else {
          assert Entries(n, style.classOf, style.order[i..]) == Entries(n, style.classOf, style.order[i + 1..]);
        }
      }
    }
  }

  lemma VoidNames(tag: Tag)
    ensures VoidName(TagName(tag)) <==> IsVoid(tag)
  {
    var name := TagName(tag);
    if |name| == 2 {
      assert name[0] == 'h' && name[1] == 'r' ==> tag.Hr?;
    } else if |name| == 3 {
      assert name[0] == 'i' ==> tag.Img?;
    }
  }
}
