/** `applyModifier` and the left fold of a section's modifier list over its
    newlined fragment. */
module Modifiers {
  import opened Options
  import opened NotionTypes
  import opened Markup
  import opened Diagnostics

  /** The tags `applyModifier` recognises. */
  const KnownTags: set<string> := {"b", "i", "a", "p"}

  /** Tags whose markup wraps the accumulated content as its only child. */
  predicate IsWrapping(tag: string) {
    tag == "b" || tag == "i" || tag == "a"
  }

  /** The page mention: a link to `pageId` showing "Page " and the id as code. */
  function PageMention(pageId: Option<string>): (n: Node)
    ensures n.PageLink? && n.pageId == pageId
    ensures n.children == [Str("Page "), Code(pageId)]
  {
    PageLink(pageId, [Str("Page "), Code(pageId)])
  }

  /** Maps one modifier to the markup that wraps `children`. Bold, italic and
      link wrap it as the sole child (a link carries `href = arg`); a page
      mention replaces it; an unknown tag leaves it unchanged and reports
      exactly one diagnostic naming the tag. Only unknown tags are reported. */
  function ApplyModifier(children: Node, mod: Modifier): (r: Logged<Node>)
    ensures IsWrapping(mod.tag) ==>
      OuterTag(r.value) == Some(mod.tag) && Unwrap(r.value) == children
    ensures mod.tag == "a" ==> r.value.Anchor? && r.value.href == mod.arg
    ensures mod.tag == "p" ==> r == Logged(PageLink(mod.arg, [Str("Page "), Code(mod.arg)]), [])
    ensures mod.tag !in KnownTags ==>
      r.value == children && r.log == [UnknownModifier(mod.tag, mod)]
    ensures r.log == [] <==> mod.tag in KnownTags
  {
    match mod.tag
    case "b" => Logged(Strong(children), [])
    case "i" => Logged(Emphasis(children), [])
    case "a" => Logged(Anchor(mod.arg, children), [])
    case "p" => Logged(PageMention(mod.arg), [])
    case _ => Logged(children, [UnknownModifier(mod.tag, mod)])
  }

  /** Every modifier of the list has a recognised tag. */
  predicate AllKnown(mods: seq<Modifier>) {
    mods == [] || (mods[0].tag in KnownTags && AllKnown(mods[1..]))
  }

  /** Number of modifiers in `mods` whose tag is not recognised. */
  function UnknownCount(mods: seq<Modifier>): nat {
    if mods == [] then 0
    else (if mods[0].tag in KnownTags then 0 else 1) + UnknownCount(mods[1..])
  }

  /** `mods.reduce(applyModifier, acc)`: each modifier wraps the result of the
      modifiers before it; the diagnostics of earlier modifiers come first.
      An empty list leaves the content unwrapped, and the fold reports
      nothing exactly when every tag is recognised. */
  function FoldModifiers(acc: Node, mods: seq<Modifier>): (r: Logged<Node>)
    ensures mods == [] ==> r == Logged(acc, [])
    ensures r.log == [] <==> AllKnown(mods)
    decreases |mods|
  {
    if mods == [] then Logged(acc, [])
    else
      var step := ApplyModifier(acc, mods[0]);
      var rest := FoldModifiers(step.value, mods[1..]);
      Logged(rest.value, step.log + rest.log)
  }

  /** A fold reports exactly one diagnostic per unrecognised modifier. */
  lemma {:induction false} FoldLogCount(acc: Node, mods: seq<Modifier>)
    ensures |FoldModifiers(acc, mods).log| == UnknownCount(mods)
    decreases |mods|
  {
    if mods != [] {
      FoldLogCount(ApplyModifier(acc, mods[0]).value, mods[1..]);
    }
  }

  /** Every diagnostic of a fold names an unrecognised modifier of the list. */
  lemma {:induction false} FoldLogNamesUnknown(acc: Node, mods: seq<Modifier>)
    ensures forall d :: d in FoldModifiers(acc, mods).log ==>
      d.UnknownModifier? && d.modifier in mods && d.tag == d.modifier.tag && d.tag !in KnownTags
    decreases |mods|
  {
    if mods != [] {
      FoldLogNamesUnknown(ApplyModifier(acc, mods[0]).value, mods[1..]);
      assert forall m :: m in mods[1..] ==> m in mods;
    }
  }

  /** Folding a concatenation folds the second list over the result of the
      first. */
  lemma {:induction false} FoldAppend(acc: Node, a: seq<Modifier>, b: seq<Modifier>)
    ensures FoldModifiers(acc, a + b).value
         == FoldModifiers(FoldModifiers(acc, a).value, b).value
    decreases |a|
  {
    if a == [] {
      assert a + b == b;
    } else {
      var ab := a + b;
      assert ab[0] == a[0] && ab[1..] == a[1..] + b;
      FoldAppend(ApplyModifier(acc, a[0]).value, a[1..], b);
    }
  }

  /** The diagnostics of a concatenation are those of the first part, then
      those of the second part folded over the first part's result. */
  lemma {:induction false} FoldAppendLog(acc: Node, a: seq<Modifier>, b: seq<Modifier>)
    ensures FoldModifiers(acc, a + b).log
         == FoldModifiers(acc, a).log + FoldModifiers(FoldModifiers(acc, a).value, b).log
    decreases |a|
  {
    if a == [] {
      assert a + b == b;
    } else {
      var ab := a + b;
      assert ab[0] == a[0] && ab[1..] == a[1..] + b;
      var step := ApplyModifier(acc, a[0]);
      var tail := FoldModifiers(step.value, a[1..]);
      var second := FoldModifiers(tail.value, b);
      calc {
        FoldModifiers(acc, ab).log;
        step.log + FoldModifiers(step.value, a[1..] + b).log;
        { FoldAppendLog(step.value, a[1..], b); }
        step.log + (tail.log + second.log);
        (step.log + tail.log) + second.log;
      }
      FoldAppend(step.value, a[1..], b);
      assert FoldModifiers(acc, a).log == step.log + tail.log;
    }
  }

  /** Left fold: the last modifier wraps the result of all the earlier ones. */
  lemma LastModifierOutermost(acc: Node, mods: seq<Modifier>, m: Modifier)
    ensures FoldModifiers(acc, mods + [m]).value
         == ApplyModifier(FoldModifiers(acc, mods).value, m).value
  {
    FoldAppend(acc, mods, [m]);
  }

  /** For a list of bold, italic and link modifiers, peeling wrappers from the
      outside meets the modifiers in reverse order: the first modifier is the
      innermost wrapper and the last the outermost, and under all of them
      lies the content unchanged. */
  lemma {:induction false} FirstModifierInnermost(acc: Node, mods: seq<Modifier>)
    requires forall i :: 0 <= i < |mods| ==> IsWrapping(mods[i].tag)
    ensures var r := FoldModifiers(acc, mods).value;
      && UnwrapN(r, |mods|) == acc
      && forall i :: 0 <= i < |mods| ==> OuterTag(UnwrapN(r, |mods| - 1 - i)) == Some(mods[i].tag)
    decreases |mods|
  {
    if mods != [] {
      var wrapped := ApplyModifier(acc, mods[0]).value;
      var rest := mods[1..];
      var r := FoldModifiers(acc, mods).value;
      assert r == FoldModifiers(wrapped, rest).value;
      FirstModifierInnermost(wrapped, rest);
      assert UnwrapN(r, |mods|) == Unwrap(UnwrapN(r, |rest|));
      forall i | 0 <= i < |mods|
        ensures OuterTag(UnwrapN(r, |mods| - 1 - i)) == Some(mods[i].tag)
      {
        if i > 0 {
          assert mods[i] == rest[i - 1];
        }
      }
    }
  }

  /** A page mention discards what it is applied to: the result depends only
      on the mention and the modifiers after it, not on the content or on
      any modifier before it. */
  lemma PageMentionDiscardsEarlier(acc: Node, mods: seq<Modifier>, j: nat)
    requires j < |mods| && mods[j].tag == "p"
    ensures FoldModifiers(acc, mods).value
         == FoldModifiers(PageMention(mods[j].arg), mods[j + 1..]).value
  {
    assert mods == mods[..j] + [mods[j]] + mods[j + 1..];
    FoldAppend(acc, mods[..j] + [mods[j]], mods[j + 1..]);
    FoldAppend(acc, mods[..j], [mods[j]]);
  }

  /** The diagnostics of a fold depend only on the modifiers, not on the
      content they are applied to. */
  lemma {:induction false} FoldLogIgnoresContent(acc1: Node, acc2: Node, mods: seq<Modifier>)
    ensures FoldModifiers(acc1, mods).log == FoldModifiers(acc2, mods).log
    decreases |mods|
  {
    if mods != [] {
      FoldLogIgnoresContent(ApplyModifier(acc1, mods[0]).value, ApplyModifier(acc2, mods[0]).value, mods[1..]);
    }
  }

  /** Unrecognised modifiers alone leave the content unwrapped and report one
      diagnostic each, in list order. */
  lemma {:induction false} UnknownModifiersPassThrough(acc: Node, mods: seq<Modifier>)
    requires forall i :: 0 <= i < |mods| ==> mods[i].tag !in KnownTags
    ensures var r := FoldModifiers(acc, mods);
      && r.value == acc
      && |r.log| == |mods|
      && forall i :: 0 <= i < |mods| ==> r.log[i] == UnknownModifier(mods[i].tag, mods[i])
    decreases |mods|
  {
    if mods != [] {
      UnknownModifiersPassThrough(acc, mods[1..]);
      var r := FoldModifiers(acc, mods);
      var rest := FoldModifiers(acc, mods[1..]);
      assert r.log == [UnknownModifier(mods[0].tag, mods[0])] + rest.log;
      forall i | 0 < i < |mods|
        ensures r.log[i] == UnknownModifier(mods[i].tag, mods[i])
      {
        assert r.log[i] == rest.log[i - 1];
        assert mods[1..][i - 1] == mods[i];
      }
    }
  }
}
