# Block renderer of notion-cms, modelled in Dafny

This project models the rendering core of the notion-cms React package
(`packages/react/lib/Block.tsx`): the function that turns one Notion block
into markup. It has three parts:

- `applyModifier` maps one text modifier `[tag, arg?]` to a wrapper:
  `b` gives strong, `i` gives emphasis, `a` gives an anchor with
  `href = arg`, and `p` gives a page link showing "Page " and the id as code.
  Any other tag passes the content through and writes a diagnostic.
- `Text` renders a list of rich-text sections `[text, modifiers?]`. It splits
  each section's text on line feeds. It reduces the pieces into a fragment
  with a `null` slot before the first piece and a `<br/>` before every later
  piece. It then left-folds the section's modifiers over that fragment.
- `Block` dispatches on the block's `type`: headings, paragraph, image, list
  item, divider and callout. Any other type renders nothing and writes a
  diagnostic.

Output is a plain `Markup.Node` tree. Diagnostics are returned next to each
value, in emission order, in a `Diagnostics.Logged` pair. The `debug` logger
is I/O, so it is not modelled.

Modules, leaves first: `Options`, `NotionTypes` (the block and rich-text
input shapes), `Markup`, `Diagnostics`, `Lines` (`split`/`join` on line
feeds), `LineBreaks` (the newline interleaving), `Modifiers`
(`applyModifier` and the fold), `RichText` (`Text`) and `BlockRender`
(`Block`).

Two behaviours of the code are worth stating up front:

- **Fold direction.** The code reduces from the left
  (`modifiers.reduce(applyModifier, NewlinedText)`, Block.tsx:49), so the
  first modifier is the innermost wrapper and the last is the outermost.
  For example, `[b, a]` on "hi" gives `a(strong("hi"))`. The model proves
  this order (`Modifiers.FirstModifierInnermost`,
  `RichText.BoldThenLinkExample`).
- **One block at a time.** `Block` renders one block and never reads its
  children, so the model has no recursion over blocks.

## Model

| member | source | states |
|---|---|---|
| `Lines.Split` | packages/react/lib/Block.tsx:41-42 | splitting on line feeds gives one more piece than there are line feeds, and no piece contains a line feed |
| `Lines.JoinSplit` | packages/react/lib/Block.tsx:41-42 | joining the pieces of a split with line feeds gives back the original text |
| `Lines.SplitJoin` | packages/react/lib/Block.tsx:41-42 | splitting the join of a non-empty list of line-feed-free pieces gives back exactly those pieces |
| `LineBreaks.ReduceNonEmpty` | packages/react/lib/Block.tsx:43-46 | once the accumulator is non-empty, each further step of the reduce appends a break and then the piece |
| `LineBreaks.ReduceFromEmpty` | packages/react/lib/Block.tsx:43-46 | the reduce from an empty accumulator gives null, the first piece, then a break and the piece for every later piece |
| `LineBreaks.Newlined` | packages/react/lib/Block.tsx:39-48 | the section's text renders to a fragment of 2(k+1) slots for k line feeds, starting with null and the first line |
| `LineBreaks.NewlinedLayout` | packages/react/lib/Block.tsx:39-48 | for k line feeds the fragment has 2(k+1) slots: slot 0 is null, every later even slot is a break, and odd slot 2j+1 holds line j of the text |
| `LineBreaks.NewlinedAt` | packages/react/lib/Block.tsx:43-46 | slot i of the fragment is null for i = 0, a break for every later even i, and line i/2 of the text for odd i |
| `LineBreaks.NewlinedBreaks` | packages/react/lib/Block.tsx:43-46 | the fragment holds exactly k breaks for k line feeds; it starts with the null slot and ends with text, so no break leads or trails |
| `LineBreaks.NewlinedRoundTrip` | packages/react/lib/Block.tsx:39-48 | the fragment's text nodes are the lines of the text in order, and joining them with line feeds reproduces the text |
| `Modifiers.ApplyModifier` | packages/react/lib/Block.tsx:13-34 | b, i and a wrap the content as the sole child (a carries `href = arg`); p gives a page link to `arg`; an unknown tag is the identity with exactly one diagnostic carrying the tag; diagnostics appear exactly for unknown tags |
| `Modifiers.PageMention` | packages/react/lib/Block.tsx:25-29 | a page mention is a page link whose target is the modifier's argument |
| `Modifiers.FoldModifiers` | packages/react/lib/Block.tsx:49 | an empty modifier list leaves the content unwrapped with no diagnostics; the fold reports no diagnostics exactly when every tag is recognised |
| `Modifiers.FoldLogCount` | packages/react/lib/Block.tsx:30-32 | a fold reports exactly one diagnostic per unrecognised modifier |
| `Modifiers.FoldLogNamesUnknown` | packages/react/lib/Block.tsx:30-32 | every diagnostic of a fold names an unrecognised modifier of the list, together with its tag |
| `Modifiers.FoldAppend` | packages/react/lib/Block.tsx:49 | folding a concatenated modifier list gives the value of folding the second part over the result of the first |
| `Modifiers.FoldAppendLog` | packages/react/lib/Block.tsx:49 | the diagnostics of folding a concatenated modifier list are the first part's diagnostics followed by those of the second part |
| `Modifiers.LastModifierOutermost` | packages/react/lib/Block.tsx:49 | the last modifier wraps the result of all the modifiers before it |
| `Modifiers.FirstModifierInnermost` | packages/react/lib/Block.tsx:17-23 | for bold, italic and link modifiers, peeling wrappers from the outside meets the modifiers in reverse list order, and the content is unchanged underneath |
| `Modifiers.PageMentionDiscardsEarlier` | packages/react/lib/Block.tsx:25-29 | after a page mention, the result does not depend on the content or on any modifier before the mention |
| `Modifiers.FoldLogIgnoresContent` | packages/react/lib/Block.tsx:30-32 | the diagnostics of a fold depend only on the modifiers, not on the content |
| `Modifiers.UnknownModifiersPassThrough` | packages/react/lib/Block.tsx:30-32 | a list of only unrecognised modifiers leaves the content unchanged and reports one diagnostic per modifier, in list order |
| `RichText.RenderSection` | packages/react/lib/Block.tsx:38-49 | an absent or empty modifier list leaves the newlined fragment unwrapped with no diagnostics; a section reports diagnostics exactly when one of its tags is unrecognised |
| `RichText.Text` | packages/react/lib/Block.tsx:35-51 | absent sections render to nothing with no diagnostics; present sections give one fragment per section, in order, each the rendering of its own section |
| `RichText.TextAppend` | packages/react/lib/Block.tsx:38-50 | rendering concatenated section lists concatenates their fragments and their diagnostics |
| `RichText.TextLogEmpty` | packages/react/lib/Block.tsx:38-50 | `Text` reports no diagnostics exactly when every modifier of every section has a recognised tag |
| `RichText.UnmodifiedSectionKeepsText` | packages/react/lib/Block.tsx:38-49 | a section without modifiers renders to a fragment whose text nodes, joined by line feeds, give back the section's text |
| `RichText.LineBreakExample` | packages/react/lib/Block.tsx:41-46 | "a\nb" without modifiers renders to null, "a", one break, "b" |
| `RichText.BoldThenLinkExample` | packages/react/lib/Block.tsx:49 | bold then link on "hi" gives a link whose sole child is the bold wrapper around the text |
| `RichText.UnknownModifierExample` | packages/react/lib/Block.tsx:30-32 | an unknown tag leaves "hi" unwrapped and reports exactly one diagnostic naming the tag |
| `BlockRender.Dispatched` | packages/react/lib/Block.tsx:54-82 | the switch over block types agrees with the dispatch table: a result exactly for the nine listed types, of the kind the table names, wrapping the composed title and its diagnostics where the kind shows a title; every other type gives nothing and exactly one diagnostic naming the type and the block |
| `BlockRender.Render` | packages/react/lib/Block.tsx:53-83 | a block renders to something exactly when its type is in the dispatch table, of the kind the table names; title-carrying kinds wrap `Text(properties?.title)` and report exactly its diagnostics; any other type gives nothing and exactly one diagnostic naming the type and the block |
| `BlockRender.RenderRecognisedType` | packages/react/lib/Block.tsx:54-78 | a block whose type is in the dispatch table (three heading levels, paragraph, image, two list kinds, divider, callout) renders to the markup kind the table names for it |
| `BlockRender.RenderUnknownType` | packages/react/lib/Block.tsx:79-81 | a block whose type is not in the dispatch table renders nothing and reports exactly one diagnostic naming the type and the block |
| `BlockRender.TitleBlocksWrapText` | packages/react/lib/Block.tsx:55-78 | headings, paragraphs, list items and callouts wrap the composed title (empty when the block has no properties or title) and report exactly its diagnostics |
| `BlockRender.ListItemsKeyedById` | packages/react/lib/Block.tsx:65-67 | bulleted and numbered list items are list items keyed by the block's id |
| `BlockRender.ImageShowsFirstSource` | packages/react/lib/Block.tsx:63-64 | an image's source is the text of the first source entry, with no diagnostics |
| `BlockRender.CalloutCarriesFormat` | packages/react/lib/Block.tsx:70-78 | a callout carries the block's colour and page icon from its format |
| `BlockRender.DividerIgnoresPayload` | packages/react/lib/Block.tsx:68-69 | every divider renders to the same separator with no diagnostics, whatever its other fields hold |

## Left out

- React and JSX: elements, `React.Fragment` and `key` as a rendering concern are modelled as plain `Markup.Node` values. The list item keeps its key as a field.
- `NotionLink` and `Callout` are components defined outside the renderer. They are opaque constructors here (`PageLink`, `Callout`), and NotionLink.tsx and Callout.tsx are not part of this model.
- The `debug` logger is I/O. Diagnostics are returned as values that hold the offending tag or type and the offending modifier or block. The message text is not modelled.
- `Text` returns the empty string `""` for absent sections. The model returns an empty fragment list, because React renders both as nothing.
- An explicit `null` modifier list makes the source throw, since the `= []` default covers only `undefined`. The model has only "absent" (`None`), which behaves as `undefined`.
- BlockRender.Render: it requires `Renderable`. An image block needs `properties.source` with at least one entry, and a callout needs `format`. The source reads these fields without a guard and throws when they are missing, so those inputs are outside the model.
- packages/types/lib/objects.ts holds only interface declarations (pages, users, files, the list envelope, block payload shapes). It has no behaviour, and `Block.tsx` reads a different, tuple-based block shape. Only the fields `Block.tsx` reads are modelled, in `NotionTypes`.
- Rendering a whole tree of blocks is not modelled. `Block` renders one block and never reads children, so there is no tree rendering to model.
- Idempotence and "the input is not mutated" are not stated as separate properties. Every operation here is a pure function of immutable values, so both hold by construction.
- Strings are sequences of characters. JavaScript's UTF-16 code units are not modelled separately; this is safe because the line feed is a single code unit.
