/** Reading "key = value" lines by key. The reader knows the separator and nothing of what printed
    the lines. */
module Reading {
  import opened Text

  /** The value of the first line that starts with the key and the separator. */
  function ValueIn(lines: seq<string>, sep: string, key: string): Option<string> {
    if lines == [] then None
    else if key + sep <= lines[0] then Some(lines[0][|key + sep|..])
    else ValueIn(lines[1..], sep, key)
  }

  /** A key ends where the separator starts. */
  predicate KeyFor(sep: string, key: string) { sep != "" && sep[0] !in key }

  function Or(a: Option<string>, b: Option<string>): Option<string> { if a.Some? then a else b }

  /** What a line of the key says when it is asked for a key. */
  function One(key: string, value: Option<string>, asked: string): Option<string> {
    if asked == key then value else None
  }

  function IfAny(v: string): Option<string> { if v == "" then None else Some(v) }

  lemma {:induction false} ValueInBoth(a: seq<string>, b: seq<string>, sep: string, asked: string)
    ensures ValueIn(a + b, sep, asked) == Or(ValueIn(a, sep, asked), ValueIn(b, sep, asked))
  {
    if a == [] {
      assert a + b == b;
    } else {
      ValueInBoth(a[1..], b, sep, asked);
      assert (a + b)[0] == a[0] && (a + b)[1..] == a[1..] + b;
    }
  }

  lemma LastLine(line: string)
    ensures [line][1..] == []
  {
  }

  lemma KeyIs(sep: string, key: string, rest: string, asked: string)
    requires KeyFor(sep, key) && KeyFor(sep, asked) && asked + sep <= key + sep + rest
    ensures asked == key
  {
    var line := key + sep + rest;
    assert line[|asked|] == (asked + sep)[|asked|] == sep[0] && line[|key|] == sep[0];
    assert forall i :: 0 <= i < |key| ==> line[i] == key[i] != sep[0];
    assert forall i :: 0 <= i < |asked| ==> line[i] == (asked + sep)[i] == asked[i] != sep[0];
    assert |asked| == |key|;
    assert asked == line[..|asked|] && key == line[..|key|];
  }

  /** A line says something of its own key only. */
  lemma LineSays(line: string, sep: string, key: string, value: string, asked: string)
    requires KeyFor(sep, key) && KeyFor(sep, asked) && line == key + sep + value
    ensures ValueIn([line], sep, asked) == One(key, Some(value), asked)
  {
    LastLine(line);
    if asked + sep <= line {
      KeyIs(sep, key, value, asked);
    }
    assert key + sep <= line && line[|key + sep|..] == value;
  }

  /** A line that does not start as the key says nothing of it. */
  lemma NothingSaid(line: string, sep: string, asked: string)
    requires asked != "" && (line == "" || line[0] != asked[0])
    ensures ValueIn([line], sep, asked) == None
  {
    LastLine(line);
    assert (asked + sep)[0] == asked[0];
  }

  lemma TwoSay(a: string, b: string, sep: string, asked: string)
    ensures ValueIn([a, b], sep, asked) == Or(ValueIn([a], sep, asked), ValueIn([b], sep, asked))
  {
    ValueInBoth([a], [b], sep, asked);
  }

  lemma FourSay(a: string, b: string, c: string, d: string, sep: string, asked: string)
    ensures ValueIn([a, b, c, d], sep, asked) ==
      Or(Or(ValueIn([a], sep, asked), ValueIn([b], sep, asked)), Or(ValueIn([c], sep, asked), ValueIn([d], sep, asked)))
  {
    TwoSay(a, b, sep, asked);
    TwoSay(c, d, sep, asked);
    ValueInBoth([a, b], [c, d], sep, asked);
    assert [a, b] + [c, d] == [a, b, c, d];
  }

  lemma FiveSay(a: string, b: string, c: string, d: string, e: string, sep: string, asked: string)
    ensures ValueIn([a, b, c, d, e], sep, asked) == Or(ValueIn([a, b, c, d], sep, asked), ValueIn([e], sep, asked))
  {
    ValueInBoth([a, b, c, d], [e], sep, asked);
    assert [a, b, c, d] + [e] == [a, b, c, d, e];
  }

  lemma ThreeParts(a: seq<string>, b: seq<string>, c: seq<string>, sep: string, asked: string)
    ensures ValueIn(a + b + c, sep, asked) ==
      Or(Or(ValueIn(a, sep, asked), ValueIn(b, sep, asked)), ValueIn(c, sep, asked))
  {
    ValueInBoth(a, b, sep, asked);
    ValueInBoth(a + b, c, sep, asked);
  }

  lemma FiveParts(a: seq<string>, b: seq<string>, c: seq<string>, d: seq<string>, e: seq<string>, sep: string,
                  asked: string)
    ensures ValueIn(a + b + c + d + e, sep, asked) ==
      Or(Or(Or(Or(ValueIn(a, sep, asked), ValueIn(b, sep, asked)), ValueIn(c, sep, asked)), ValueIn(d, sep, asked)),
         ValueIn(e, sep, asked))
  {
    ThreeParts(a, b, c, sep, asked);
    ThreeParts(a + b + c, d, e, sep, asked);
  }
}
