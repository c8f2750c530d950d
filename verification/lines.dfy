/** JavaScript's `String.prototype.split("\n")` and its inverse
    `Array.prototype.join("\n")`, on strings as sequences of characters. */
module Lines {

  const NL: char := '\n'

  /** Number of line-feed characters in `s`. */
  function NewlineCount(s: string): nat {
    if s == [] then 0 else (if s[0] == NL then 1 else 0) + NewlineCount(s[1..])
  }

  /** The pieces of `s` between line feeds: always one more piece than there
      are line feeds (the empty string splits into one empty piece), and no
      piece contains a line feed. */
  function Split(s: string): (parts: seq<string>)
    ensures |parts| == NewlineCount(s) + 1
    ensures forall i :: 0 <= i < |parts| ==> NL !in parts[i]
    decreases |s|
  {
    if s == [] then [""]
    else if s[0] == NL then [""] + Split(s[1..])
    else
      var rest := Split(s[1..]);
      [[s[0]] + rest[0]] + rest[1..]
  }

  /** The pieces separated by single line feeds; no pieces give "". */
  function Join(parts: seq<string>): string {
    if parts == [] then ""
    else if |parts| == 1 then parts[0]
    else parts[0] + [NL] + Join(parts[1..])
  }

  /** Prepending a character to the first piece prepends it to the join. */
  lemma JoinConsChar(c: char, parts: seq<string>)
    requires parts != []
    ensures Join([[c] + parts[0]] + parts[1..]) == [c] + Join(parts)
  {
    var ps := [[c] + parts[0]] + parts[1..];
    assert ps[1..] == parts[1..];
    if |parts| > 1 {
      assert ([c] + parts[0]) + [NL] + Join(parts[1..]) == [c] + (parts[0] + [NL] + Join(parts[1..]));
    }
  }

  /** Joining the pieces of a split gives back the original string. */
  lemma {:induction false} JoinSplit(s: string)
    ensures Join(Split(s)) == s
    decreases |s|
  {
    if s == [] {
    } else if s[0] == NL {
      JoinSplit(s[1..]);
      var rest := Split(s[1..]);
      assert ([""] + rest)[1..] == rest;
      assert Join([""] + rest) == "" + [NL] + Join(rest);
      assert s == [s[0]] + s[1..];
    } else {
      JoinSplit(s[1..]);
      JoinConsChar(s[0], Split(s[1..]));
      assert s == [s[0]] + s[1..];
    }
  }

  /** A string without line feeds is a single piece. */
  lemma {:induction false} SplitSingle(p: string)
    requires NL !in p
    ensures Split(p) == [p]
    decreases |p|
  {
    if p != [] {
      assert NL !in p[1..];
      SplitSingle(p[1..]);
      assert [p[0]] + p[1..] == p;
    }
  }

  /** A line-feed-free prefix followed by a line feed is split off as the
      first piece. */
  lemma {:induction false} SplitPrefix(p: string, s: string)
    requires NL !in p
    ensures Split(p + [NL] + s) == [p] + Split(s)
    decreases |p|
  {
    var t := p + [NL] + s;
    if p == [] {
      assert t[1..] == s;
    } else {
      assert t[1..] == p[1..] + [NL] + s;
      assert NL !in p[1..];
      SplitPrefix(p[1..], s);
      assert [p[0]] + p[1..] == p;
    }
  }

  /** Splitting the join of line-feed-free pieces gives back the pieces. */
  lemma {:induction false} SplitJoin(parts: seq<string>)
    requires parts != []
    requires forall i :: 0 <= i < |parts| ==> NL !in parts[i]
    ensures Split(Join(parts)) == parts
    decreases |parts|
  {
    if |parts| == 1 {
      SplitSingle(parts[0]);
    } else {
      assert NL !in parts[0];
      SplitJoin(parts[1..]);
      SplitPrefix(parts[0], Join(parts[1..]));
      assert [parts[0]] + parts[1..] == parts;
    }
  }
}
