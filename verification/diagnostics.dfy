/** The renderer's diagnostic channel. The renderer writes to a named debug
    logger; here every operation returns the diagnostics it would have
    written, in the order it would have written them, next to its value. */
module Diagnostics {
  import opened NotionTypes

  datatype Diagnostic =
    /** "Ignoring unknown text modifier": the tag and the whole modifier. */
    | UnknownModifier(tag: string, modifier: Modifier)
    /** "Ignoring unknown block type": the type and the whole block. */
    | UnknownBlockType(blockType: string, block: BlockValue)

  /** A value together with the diagnostics emitted while computing it. */
  datatype Logged<+T> = Logged(value: T, log: seq<Diagnostic>)

  /** Applies `f` to each element in order, keeping one value per element
      and the diagnostics of earlier elements first. */
  function MapLogged<X, Y>(f: X -> Logged<Y>, xs: seq<X>): Logged<seq<Y>>
    decreases |xs|
  {
    if xs == [] then Logged([], [])
    else
      var head := f(xs[0]);
      var rest := MapLogged(f, xs[1..]);
      Logged([head.value] + rest.value, head.log + rest.log)
  }

  /** One value per element, in order, each `f` of its own element. */
  lemma {:induction false} MapLoggedEach<X, Y>(f: X -> Logged<Y>, xs: seq<X>)
    ensures |MapLogged(f, xs).value| == |xs|
    ensures forall i :: 0 <= i < |xs| ==> MapLogged(f, xs).value[i] == f(xs[i]).value
    decreases |xs|
  {
    if xs != [] {
      MapLoggedEach(f, xs[1..]);
      var r := MapLogged(f, xs).value;
      var rest := MapLogged(f, xs[1..]).value;
      assert r == [f(xs[0]).value] + rest;
      forall i | 1 <= i < |xs|
        ensures r[i] == f(xs[i]).value
      {
        assert r[i] == rest[i - 1];
        assert xs[1..][i - 1] == xs[i];
      }
    }
  }

  /** Mapping a concatenation concatenates the values. */
  lemma {:induction false} MapLoggedAppend<X, Y>(f: X -> Logged<Y>, a: seq<X>, b: seq<X>)
    ensures MapLogged(f, a + b).value == MapLogged(f, a).value + MapLogged(f, b).value
    decreases |a|
  {
    if a == [] {
      assert a + b == b;
    } else {
      var ab := a + b;
      assert ab[0] == a[0] && ab[1..] == a[1..] + b;
      MapLoggedAppend(f, a[1..], b);
      var head := f(a[0]).value;
      var ra, rb := MapLogged(f, a[1..]).value, MapLogged(f, b).value;
      assert MapLogged(f, ab).value == [head] + (ra + rb);
      assert [head] + (ra + rb) == ([head] + ra) + rb;
    }
  }

  /** Mapping a concatenation concatenates the diagnostics. */
  lemma {:induction false} MapLoggedAppendLog<X, Y>(f: X -> Logged<Y>, a: seq<X>, b: seq<X>)
    ensures MapLogged(f, a + b).log == MapLogged(f, a).log + MapLogged(f, b).log
    decreases |a|
  {
    if a == [] {
      assert a + b == b;
    } else {
      var ab := a + b;
      assert ab[0] == a[0] && ab[1..] == a[1..] + b;
      MapLoggedAppendLog(f, a[1..], b);
      var head := f(a[0]).log;
      var ra, rb := MapLogged(f, a[1..]).log, MapLogged(f, b).log;
      assert MapLogged(f, ab).log == head + (ra + rb);
      assert head + (ra + rb) == (head + ra) + rb;
    }
  }

  /** A map reports nothing exactly when no element reports anything. */
  lemma {:induction false} MapLoggedLogEmpty<X, Y>(f: X -> Logged<Y>, xs: seq<X>)
    ensures MapLogged(f, xs).log == [] <==> forall i :: 0 <= i < |xs| ==> f(xs[i]).log == []
    decreases |xs|
  {
    if xs != [] {
      MapLoggedLogEmpty(f, xs[1..]);
      assert forall i :: 1 <= i < |xs| ==> xs[1..][i - 1] == xs[i];
    }
  }
}
