/** The renderer's output: a tree of markup nodes standing in for the React
    elements the renderer builds. `Null` is React's `null` child, which renders
    nothing. `PageLink` and `Callout` stand for components defined outside the
    renderer and are treated as opaque constructors. */
module Markup {
  import opened Options

  datatype Node =
    | Null
    | Str(s: string)
    | Break
    | Fragment(children: seq<Node>)
    | Strong(child: Node)
    | Emphasis(child: Node)
    | Anchor(href: Option<string>, child: Node)
    | Code(code: Option<string>)
    | PageLink(pageId: Option<string>, children: seq<Node>)
    | Heading(level: nat, children: seq<Node>)
    | Paragraph(children: seq<Node>)
    | Image(src: string)
    | ListItem(key: string, children: seq<Node>)
    | Rule
    | Callout(colour: Option<string>, icon: Option<string>, children: seq<Node>)

  /** The modifier tag whose wrapper is the outermost node of `n`, if `n` is
      one of the single-child inline wrappers. */
  function OuterTag(n: Node): Option<string> {
    match n
    case Strong(_) => Some("b")
    case Emphasis(_) => Some("i")
    case Anchor(_, _) => Some("a")
    case _ => None
  }

  /** Removes one single-child inline wrapper; any other node is left as is. */
  function Unwrap(n: Node): Node {
    match n
    case Strong(c) => c
    case Emphasis(c) => c
    case Anchor(_, c) => c
    case _ => n
  }

  /** Removes `k` wrappers, outermost first. */
  function UnwrapN(n: Node, k: nat): Node {
    if k == 0 then n else Unwrap(UnwrapN(n, k - 1))
  }

  /** Number of line-break nodes in a sibling list. */
  function BreakCount(ns: seq<Node>): nat {
    if ns == [] then 0 else (if ns[0] == Break then 1 else 0) + BreakCount(ns[1..])
  }

  /** The strings of the text nodes in a sibling list, in order. */
  function Texts(ns: seq<Node>): seq<string> {
    if ns == [] then []
    else (if ns[0].Str? then [ns[0].s] else []) + Texts(ns[1..])
  }

  lemma {:induction false} BreakCountAppend(a: seq<Node>, b: seq<Node>)
    ensures BreakCount(a + b) == BreakCount(a) + BreakCount(b)
    decreases |a|
  {
    if a != [] {
      assert (a + b)[1..] == a[1..] + b;
      BreakCountAppend(a[1..], b);
    } else {
      assert a + b == b;
    }
  }

  lemma {:induction false} TextsAppend(a: seq<Node>, b: seq<Node>)
    ensures Texts(a + b) == Texts(a) + Texts(b)
    decreases |a|
  {
    if a != [] {
      assert (a + b)[1..] == a[1..] + b;
      TextsAppend(a[1..], b);
    } else {
      assert a + b == b;
    }
  }
}
