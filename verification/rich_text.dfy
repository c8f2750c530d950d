/** `Text`: renders a list of rich-text sections to one fragment per section. */
module RichText {
  import opened Options
  import opened NotionTypes
  import opened Markup
  import opened Diagnostics
  import opened Lines
  import opened LineBreaks
  import opened Modifiers

  /** One section: its newlined fragment with its modifier list folded over
      it; an absent list counts as empty and leaves the fragment unwrapped.
      A section reports diagnostics exactly when one of its modifiers has an
      unrecognised tag. */
  function RenderSection(section: Section): (r: Logged<Node>)
    ensures section.modifiers.GetOr([]) == [] ==> r == Logged(Newlined(section.text), [])
    ensures r.log == [] <==> AllKnown(section.modifiers.GetOr([]))
  {
    FoldModifiers(Newlined(section.text), section.modifiers.GetOr([]))
  }

  /** `Text(sections)`: absent sections render to nothing and report nothing;
      present sections give exactly one fragment per section, in input order,
      each the rendering of its own section. */
  function Text(sections: Option<seq<Section>>): (r: Logged<seq<Node>>)
    ensures sections.None? ==> r == Logged([], [])
    ensures sections.Some? ==>
      && |r.value| == |sections.value|
      && forall i :: 0 <= i < |sections.value| ==> r.value[i] == RenderSection(sections.value[i]).value
  {
    match sections
    case None => Logged([], [])
    case Some(s) => MapLoggedEach(RenderSection, s); MapLogged(RenderSection, s)
  }

  /** Rendering a concatenation of sections concatenates the fragments and
      the diagnostics: no section affects another. */
  lemma TextAppend(a: seq<Section>, b: seq<Section>)
    ensures Text(Some(a + b)).value == Text(Some(a)).value + Text(Some(b)).value
    ensures Text(Some(a + b)).log == Text(Some(a)).log + Text(Some(b)).log
  {
    MapLoggedAppend(RenderSection, a, b);
    MapLoggedAppendLog(RenderSection, a, b);
  }

  /** The diagnostics of `Text` are empty exactly when every modifier of
      every section has a recognised tag. */
  lemma TextLogEmpty(sections: seq<Section>)
    ensures Text(Some(sections)).log == []
        <==> forall i :: 0 <= i < |sections| ==> AllKnown(sections[i].modifiers.GetOr([]))
  {
    MapLoggedLogEmpty(RenderSection, sections);
  }

  /** A section without modifiers (absent or empty list) renders to its
      newlined fragment unwrapped, whose text nodes joined by line feeds give
      back the section's text. */
  lemma UnmodifiedSectionKeepsText(section: Section)
    requires section.modifiers.GetOr([]) == []
    ensures var r := RenderSection(section);
      && r.log == []
      && r.value.Fragment?
      && Join(Texts(r.value.children)) == section.text
  {
    NewlinedRoundTrip(section.text);
  }

  /** A single section renders to its own fragment and diagnostics. */
  lemma TextSingle(section: Section)
    ensures Text(Some([section])).value == [RenderSection(section).value]
    ensures Text(Some([section])).log == RenderSection(section).log
  {
    assert [section][1..] == [];
    assert MapLogged(RenderSection, []) == Logged([], []);
    assert RenderSection(section).log + [] == RenderSection(section).log;
  }

  /** "a\nb" without modifiers: text "a", one break, text "b". */
  lemma LineBreakExample()
    ensures Text(Some([Section("a\nb", None)])) == Logged([Fragment([Null, Str("a"), Break, Str("b")])], [])
  {
    assert "a\nb" == "a" + [NL] + "b";
    SplitSingle("a");
    SplitSingle("b");
    SplitPrefix("a", "b");
    ReduceFromEmpty(["a", "b"]);
    TextSingle(Section("a\nb", None));
    var frag := Fragment([Null, Str("a"), Break, Str("b")]);
    assert Newlined("a\nb") == frag;
    assert RenderSection(Section("a\nb", None)) == Logged(frag, []);
  }

  /** Bold then link on "hi": the link is outermost and the bold sits
      directly inside it. */
  lemma BoldThenLinkExample()
    ensures Text(Some([Section("hi", Some([Modifier("b", None), Modifier("a", Some("https://x"))]))]))
         == Logged([Anchor(Some("https://x"), Strong(Fragment([Null, Str("hi")])))], [])
  {
    SplitSingle("hi");
    ReduceFromEmpty(["hi"]);
    var frag := Fragment([Null, Str("hi")]);
    assert Newlined("hi") == frag;
    TextSingle(Section("hi", Some([Modifier("b", None), Modifier("a", Some("https://x"))])));
    var mods := [Modifier("b", None), Modifier("a", Some("https://x"))];
    assert FoldModifiers(frag, mods).value == Anchor(Some("https://x"), Strong(frag));
    assert RenderSection(Section("hi", Some(mods))) == Logged(Anchor(Some("https://x"), Strong(frag)), []);
  }

  /** An unrecognised tag leaves the text unwrapped and reports one
      diagnostic naming the tag. */
  lemma UnknownModifierExample()
    ensures Text(Some([Section("hi", Some([Modifier("u", None)]))]))
         == Logged([Fragment([Null, Str("hi")])], [UnknownModifier("u", Modifier("u", None))])
  {
    SplitSingle("hi");
    ReduceFromEmpty(["hi"]);
    var frag := Fragment([Null, Str("hi")]);
    assert Newlined("hi") == frag;
    TextSingle(Section("hi", Some([Modifier("u", None)])));
    assert RenderSection(Section("hi", Some([Modifier("u", None)]))) == Logged(frag, [UnknownModifier("u", Modifier("u", None))]);
  }
}
