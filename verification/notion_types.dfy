/** The input shapes the block renderer consumes: a block record with a type
    discriminant, its optional `properties` and `format`, and the tuple-shaped
    rich-text sections whose second element is an optional modifier list. */
module NotionTypes {
  import opened Options

  /** A text modifier `[tag, arg?]`: `tag` selects bold (`b`), italic (`i`),
      link (`a`, `arg` = URL) or page mention (`p`, `arg` = page id); any
      other tag is possible at run time. */
  datatype Modifier = Modifier(tag: string, arg: Option<string>)

  /** A rich-text section `[text, modifiers?]`. */
  datatype Section = Section(text: string, modifiers: Option<seq<Modifier>>)

  /** The part of `block.properties` the renderer reads. */
  datatype Properties = Properties(title: Option<seq<Section>>, source: Option<seq<Section>>)

  /** The part of `block.format` the renderer reads. */
  datatype Format = Format(blockColor: Option<string>, pageIcon: Option<string>)

  /** One block as handed to the renderer; `blockType` is the `type` field. */
  datatype BlockValue = BlockValue(
    blockType: string,
    id: string,
    properties: Option<Properties>,
    format: Option<Format>)
}
