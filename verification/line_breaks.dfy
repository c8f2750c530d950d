/** The line-break interleaving of one rich-text section: the text is split on
    line feeds and the pieces are reduced into a sibling list that holds a
    `null` slot before the first piece and a `<br/>` before every later one. */
module LineBreaks {
  import opened Markup
  import opened Lines

  /** One step of the reduce: the slot before `piece`, then `piece`. */
  function Step(arr: seq<Node>, piece: string): seq<Node> {
    arr + [if |arr| > 0 then Break else Null, Str(piece)]
  }

  /** `pieces.reduce(Step, arr)`: a left fold from the accumulator `arr`. */
  function Reduce(arr: seq<Node>, pieces: seq<string>): seq<Node>
    decreases |pieces|
  {
    if pieces == [] then arr else Reduce(Step(arr, pieces[0]), pieces[1..])
  }

  /** The fragment a section's text renders to before any modifier applies:
      a `null` slot and the first line, then a break and a line for every
      line feed of the text. */
  function Newlined(text: string): (frag: Node)
    ensures frag.Fragment?
    ensures |frag.children| == 2 * (NewlineCount(text) + 1)
    ensures frag.children[0] == Null && frag.children[1] == Str(Split(text)[0])
  {
    var pieces := Split(text);
    ReduceFromEmpty(pieces);
    BreakEachLength(pieces[1..]);
    Fragment(Reduce([], pieces))
  }

  /** Reference layout of the later pieces: a break, then the piece. */
  function BreakEach(pieces: seq<string>): seq<Node> {
    if pieces == [] then [] else [Break, Str(pieces[0])] + BreakEach(pieces[1..])
  }

  lemma {:induction false} BreakEachAt(pieces: seq<string>, i: int)
    requires 0 <= i < 2 * |pieces|
    ensures |BreakEach(pieces)| == 2 * |pieces|
    ensures BreakEach(pieces)[i] == if i % 2 == 0 then Break else Str(pieces[i / 2])
    decreases |pieces|
  {
    BreakEachLength(pieces);
    if i >= 2 {
      BreakEachAt(pieces[1..], i - 2);
      assert BreakEach(pieces)[i] == BreakEach(pieces[1..])[i - 2];
      assert pieces[1..][(i - 2) / 2] == pieces[i / 2];
    }
  }

  lemma {:induction false} BreakEachLength(pieces: seq<string>)
    ensures |BreakEach(pieces)| == 2 * |pieces|
    decreases |pieces|
  {
    if pieces != [] {
      BreakEachLength(pieces[1..]);
    }
  }

  lemma {:induction false} BreakEachCounts(pieces: seq<string>)
    ensures BreakCount(BreakEach(pieces)) == |pieces|
    ensures Texts(BreakEach(pieces)) == pieces
    decreases |pieces|
  {
    if pieces != [] {
      var head: seq<Node> := [Break, Str(pieces[0])];
      BreakEachCounts(pieces[1..]);
      BreakCountAppend(head, BreakEach(pieces[1..]));
      TextsAppend(head, BreakEach(pieces[1..]));
      assert head[1..][1..] == [];
      assert Texts(head) == [pieces[0]];
      assert [pieces[0]] + pieces[1..] == pieces;
    }
  }

  /** Once the accumulator is non-empty, every further step adds a break. */
  lemma {:induction false} ReduceNonEmpty(arr: seq<Node>, pieces: seq<string>)
    requires arr != []
    ensures Reduce(arr, pieces) == arr + BreakEach(pieces)
    decreases |pieces|
  {
    if pieces != [] {
      ReduceNonEmpty(Step(arr, pieces[0]), pieces[1..]);
      assert Step(arr, pieces[0]) == arr + [Break, Str(pieces[0])];
    }
  }

  /** The reduce from an empty accumulator: `null`, the first piece, then a
      break before each later piece. */
  lemma ReduceFromEmpty(pieces: seq<string>)
    requires pieces != []
    ensures Reduce([], pieces) == [Null, Str(pieces[0])] + BreakEach(pieces[1..])
  {
    assert Step([], pieces[0]) == [Null, Str(pieces[0])];
    ReduceNonEmpty([Null, Str(pieces[0])], pieces[1..]);
  }

  /** The slot at position `i` of the fragment of `text`. */
  lemma {:induction false} NewlinedAt(text: string, i: int)
    requires 0 <= i < 2 * (NewlineCount(text) + 1)
    ensures |Newlined(text).children| == 2 * (NewlineCount(text) + 1)
    ensures Newlined(text).children[i]
         == if i == 0 then Null else if i % 2 == 0 then Break else Str(Split(text)[i / 2])
  {
    var pieces := Split(text);
    var rest := BreakEach(pieces[1..]);
    ReduceFromEmpty(pieces);
    BreakEachLength(pieces[1..]);
    assert Newlined(text).children == [Null, Str(pieces[0])] + rest;
    if i >= 2 {
      BreakEachAt(pieces[1..], i - 2);
      assert Newlined(text).children[i] == rest[i - 2];
      assert (i - 2) % 2 == i % 2 && (i - 2) / 2 == i / 2 - 1;
      if i % 2 == 1 {
        assert pieces[1..][i / 2 - 1] == pieces[i / 2];
      }
    }
  }

  /** Position by position: slot 0 is `null`, every other even slot is a
      break, and odd slot 2j+1 holds the j-th line of the text; there are
      2(k+1) slots for k line feeds. */
  lemma NewlinedLayout(text: string)
    ensures var c := Newlined(text).children;
      && |c| == 2 * (NewlineCount(text) + 1)
      && forall i :: 0 <= i < |c| ==>
           c[i] == if i == 0 then Null else if i % 2 == 0 then Break else Str(Split(text)[i / 2])
  {
    NewlinedAt(text, 0);
    forall i | 0 <= i < |Newlined(text).children|
      ensures Newlined(text).children[i]
           == if i == 0 then Null else if i % 2 == 0 then Break else Str(Split(text)[i / 2])
    {
      NewlinedAt(text, i);
    }
  }

  /** k line feeds give exactly k breaks; the first slot is `null` and the
      last slot is text, so no break leads or trails. */
  lemma NewlinedBreaks(text: string)
    ensures var c := Newlined(text).children;
      && BreakCount(c) == NewlineCount(text)
      && c != [] && c[0] == Null && c[|c| - 1].Str?
  {
    var pieces := Split(text);
    var c := Newlined(text).children;
    ReduceFromEmpty(pieces);
    BreakEachCounts(pieces[1..]);
    BreakCountAppend([Null, Str(pieces[0])], BreakEach(pieces[1..]));
    NewlinedAt(text, 0);
    NewlinedAt(text, 2 * NewlineCount(text) + 1);
  }

  /** The text nodes of the fragment are exactly the lines of the text, in
      order, and joining them with line feeds gives back the text. */
  lemma NewlinedRoundTrip(text: string)
    ensures Texts(Newlined(text).children) == Split(text)
    ensures Join(Texts(Newlined(text).children)) == text
  {
    var pieces := Split(text);
    var head: seq<Node> := [Null, Str(pieces[0])];
    ReduceFromEmpty(pieces);
    BreakEachCounts(pieces[1..]);
    TextsAppend(head, BreakEach(pieces[1..]));
    assert head[1..][1..] == [];
    assert Texts(head) == [pieces[0]];
    assert [pieces[0]] + pieces[1..] == pieces;
    JoinSplit(text);
  }
}
