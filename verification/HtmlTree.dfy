/** The parsed HTML document: what the schema's field checks leave for the traversal and the serializer to look at. */
module HtmlTree {
  import opened Basics

  datatype Tag =
    | Article | Section | Header | Footer | Main | Aside | Nav | P | Blockquote | Figure | Figcaption
    | Thead | Tbody | Tr | Th | Td | Li | Hr | Img | A | H1 | H2 | H3 | H4 | H5 | H6 | Ul | Ol | Table

  datatype Attributes = Attributes(
    href: Option<string>, src: Option<string>, alt: Option<string>, title: Option<string>,
    target: Option<string>, rel: Option<string>, ariaDescribedBy: Option<string>, ariaLabelledBy: Option<string>,
    scope: Option<string>, colspan: Option<string>, rowspan: Option<string>, loading: Option<string>,
    decoding: Option<string>, referrerpolicy: Option<string>, publicationBlock: Option<string>,
    referenceId: Option<string>, citationId: Option<string>, footnoteId: Option<string>)

  datatype Kind = Generic | Heading(level: int) | Image(assetId: string) | Other

  datatype Node =
    | Text(text: string)
    | Element(kind: Kind, id: Option<string>, tag: Tag, attributes: Attributes, classNames: seq<string>,
              ariaLabel: Option<string>, role: Option<string>, children: seq<Node>)

  datatype DocumentSection = DocumentSection(id: string, elements: seq<Node>)

  datatype Landmark = Landmark(role: string, sectionId: string, labelText: Option<string>)

  datatype Document = Document(
    sections: seq<DocumentSection>, landmarks: seq<Landmark>, skipTarget: string, assetIds: set<string>, assetUris: seq<string>)

  /** The URL policy, shared by validator and serializer. Values arrive trimmed, so a passing check returns its argument. */
  datatype UrlPolicy = UrlPolicy(internalHref: string -> bool, externalUrl: string -> bool, assetUrl: string -> bool)

  predicate IsVoid(tag: Tag) {
    tag.Hr? || tag.Img?
  }

  function Size(n: Node): nat
    decreases n, 0
  {
    match n
    case Text(_) => 0
    case Element(_, _, _, _, _, _, _, children) => 1 + ForestSize(children)
  }

  function ForestSize(ns: seq<Node>): nat
    decreases ns, 1
  {
    if ns == [] then 0 else Size(ns[0]) + ForestSize(ns[1..])
  }
}
