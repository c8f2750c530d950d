/** `Block`: dispatches one block on its `type` field to the markup for that
    type. The dispatch does not descend into child blocks. */
module BlockRender {
  import opened Options
  import opened NotionTypes
  import opened Markup
  import opened Diagnostics
  import opened RichText

  /** The shape of markup each recognised block type produces. */
  datatype Kind =
    | HeadingKind(level: nat)
    | ParagraphKind
    | ImageKind
    | ListItemKind
    | DividerKind
    | CalloutKind

  /** The dispatch table as data: block type to the kind of markup it gets. */
  const Dispatch: map<string, Kind> := map[
    "header" := HeadingKind(1),
    "sub_header" := HeadingKind(2),
    "sub_sub_header" := HeadingKind(3),
    "text" := ParagraphKind,
    "image" := ImageKind,
    "bulleted_list" := ListItemKind,
    "numbered_list" := ListItemKind,
    "divider" := DividerKind,
    "callout" := CalloutKind]

  /** The kind of a rendered block node. */
  function KindOf(n: Node): Option<Kind> {
    match n
    case Heading(level, _) => Some(HeadingKind(level))
    case Paragraph(_) => Some(ParagraphKind)
    case Image(_) => Some(ImageKind)
    case ListItem(_, _) => Some(ListItemKind)
    case Rule => Some(DividerKind)
    case Callout(_, _, _) => Some(CalloutKind)
    case _ => None
  }

  /** Kinds whose markup wraps the block's composed title. */
  predicate CarriesTitle(k: Kind) {
    k.HeadingKind? || k.ParagraphKind? || k.ListItemKind? || k.CalloutKind?
  }

  /** The composed content of a title-carrying block node. */
  function Body(n: Node): seq<Node> {
    match n
    case Heading(_, c) => c
    case Paragraph(c) => c
    case ListItem(_, c) => c
    case Callout(_, _, c) => c
    case _ => []
  }

  /** `block.properties?.title`: absent when the block has no properties. */
  function TitleOf(b: BlockValue): Option<seq<Section>> {
    match b.properties
    case None => None
    case Some(p) => p.title
  }

  /** The fields the renderer dereferences without a guard: an image needs
      `properties.source[0]`, a callout needs `format`. */
  predicate Renderable(b: BlockValue) {
    && (b.blockType == "image" ==>
          b.properties.Some? && b.properties.value.source.Some? && |b.properties.value.source.value| > 0)
    && (b.blockType == "callout" ==> b.format.Some?)
  }

  /** The `switch` of `Block`, given the block and its composed title. A
      recognised type yields the markup kind its entry in the dispatch table
      names, wrapping the title and its diagnostics when that kind shows one;
      any other type yields nothing and exactly one diagnostic naming the
      type and the block. */
  function Dispatched(b: BlockValue, title: Logged<seq<Node>>): (r: Logged<Option<Node>>)
    requires Renderable(b)
    ensures r.value.None? <==> b.blockType !in Dispatch
    ensures r.value.Some? ==> KindOf(r.value.value) == Some(Dispatch[b.blockType])
    ensures r.value.Some? && CarriesTitle(Dispatch[b.blockType]) ==>
      Body(r.value.value) == title.value && r.log == title.log
    ensures r.value.None? ==> r.log == [UnknownBlockType(b.blockType, b)]
  {
    match b.blockType
    case "header" => Logged(Some(Heading(1, title.value)), title.log)
    case "sub_header" => Logged(Some(Heading(2, title.value)), title.log)
    case "sub_sub_header" => Logged(Some(Heading(3, title.value)), title.log)
    case "text" => Logged(Some(Paragraph(title.value)), title.log)
    case "image" => Logged(Some(Image(b.properties.value.source.value[0].text)), [])
    case "bulleted_list" => Logged(Some(ListItem(b.id, title.value)), title.log)
    case "numbered_list" => Logged(Some(ListItem(b.id, title.value)), title.log)
    case "divider" => Logged(Some(Rule), [])
    case "callout" =>
      Logged(Some(Callout(b.format.value.blockColor, b.format.value.pageIcon, title.value)), title.log)
    case _ => Logged(None, [UnknownBlockType(b.blockType, b)])
  }

  /** `Block`: renders one block, or nothing for an unrecognised type. The
      types that show a title compose it from `properties?.title`; composing
      is pure, so naming it once for all types changes nothing for the
      types that do not show it. */
  function Render(b: BlockValue): (r: Logged<Option<Node>>)
    requires Renderable(b)
    ensures r.value.None? <==> b.blockType !in Dispatch
    ensures r.value.Some? ==> KindOf(r.value.value) == Some(Dispatch[b.blockType])
    ensures r.value.Some? && CarriesTitle(Dispatch[b.blockType]) ==>
      Body(r.value.value) == Text(TitleOf(b)).value && r.log == Text(TitleOf(b)).log
    ensures r.value.None? ==> r.log == [UnknownBlockType(b.blockType, b)]
  {
    Dispatched(b, Text(TitleOf(b)))
  }

  /** A recognised type yields the markup its entry in the dispatch table
      names. */
  lemma RenderRecognisedType(b: BlockValue)
    requires Renderable(b) && b.blockType in Dispatch
    ensures Render(b).value.Some?
    ensures KindOf(Render(b).value.value) == Some(Dispatch[b.blockType])
  {
  }

  /** Any other type yields nothing and exactly one diagnostic naming the
      type and the block. */
  lemma RenderUnknownType(b: BlockValue)
    requires b.blockType !in Dispatch
    ensures Render(b) == Logged(None, [UnknownBlockType(b.blockType, b)])
  {
  }

  /** Headings, paragraphs, list items and callouts wrap the composed title
      (nothing when the block has no properties or no title) and report
      exactly the title's diagnostics. */
  lemma TitleBlocksWrapText(b: BlockValue)
    requires Renderable(b)
    requires b.blockType in Dispatch && CarriesTitle(Dispatch[b.blockType])
    ensures Render(b).value.Some?
    ensures Body(Render(b).value.value) == Text(TitleOf(b)).value
    ensures Render(b).log == Text(TitleOf(b)).log
    ensures TitleOf(b).None? ==> Body(Render(b).value.value) == [] && Render(b).log == []
  {
  }

  /** List items are keyed by the block's id. */
  lemma ListItemsKeyedById(b: BlockValue)
    requires b.blockType == "bulleted_list" || b.blockType == "numbered_list"
    ensures Render(b).value.Some? && Render(b).value.value.ListItem?
    ensures Render(b).value.value.key == b.id
  {
  }

  /** An image shows the text of the first source entry and reports nothing. */
  lemma ImageShowsFirstSource(b: BlockValue)
    requires b.blockType == "image" && Renderable(b)
    ensures Render(b) == Logged(Some(Image(b.properties.value.source.value[0].text)), [])
  {
  }

  /** A callout carries the block's colour and icon from its format. */
  lemma CalloutCarriesFormat(b: BlockValue)
    requires b.blockType == "callout" && b.format.Some?
    ensures Render(b).value.Some? && Render(b).value.value.Callout?
    ensures Render(b).value.value.colour == b.format.value.blockColor
    ensures Render(b).value.value.icon == b.format.value.pageIcon
  {
  }

  /** A divider renders the same separator whatever else the block holds. */
  lemma DividerIgnoresPayload(b1: BlockValue, b2: BlockValue)
    requires b1.blockType == "divider" && b2.blockType == "divider"
    ensures Render(b1) == Render(b2) == Logged(Some(Rule), [])
  {
  }
}
