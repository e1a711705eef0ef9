/** The string operations of Go's `strings` and `strconv` packages that the panel's own
    line formats are built from, with the round trips the printers and parsers rely on.
    A Go string is modelled as a sequence of characters. */
module Text {

  datatype Option<+T> = None | Some(value: T)

  /** The panel's `error` results; which message an error carries is not modelled. */
  datatype Result<+T> = Ok(value: T) | Err

  // ---------------------------------------------------------------------------
  // Splitting at one character
  // ---------------------------------------------------------------------------

  /** strings.Split(s, c) for a one-character separator. */
  function Split(s: string, c: char): (parts: seq<string>)
    ensures |parts| > 0
  {
    if s == "" then [""] else Attach(s[0], c, Split(s[1..], c))
  }

  function Attach(first: char, c: char, rest: seq<string>): (parts: seq<string>)
    requires |rest| > 0
    ensures |parts| > 0
  {
    if first == c then [""] + rest else [[first] + rest[0]] + rest[1..]
  }

  lemma AttachAppend(first: char, c: char, x: seq<string>, y: seq<string>)
    requires |x| > 0
    ensures Attach(first, c, x + y) == Attach(first, c, x) + y
  {
    assert (x + y)[0] == x[0] && (x + y)[1..] == x[1..] + y;
  }

  /** The lines of a file, each ended by a newline. */
  function Unlines(lines: seq<string>): string {
    if lines == [] then "" else lines[0] + "\n" + Unlines(lines[1..])
  }

  /** strings.Join(parts, sep). */
  function Join(parts: seq<string>, sep: string): string {
    if parts == [] then ""
    else if |parts| == 1 then parts[0]
    else parts[0] + sep + Join(parts[1..], sep)
  }

  predicate OneLine(s: string) { '\n' !in s }

  predicate AllOneLine(lines: seq<string>) { forall line :: line in lines ==> OneLine(line) }

  lemma {:induction false} SplitAfter(a: string, c: char, rest: string)
    requires c !in a
    ensures Split(a + [c] + rest, c) == [a] + Split(rest, c)
  {
    var s := a + [c] + rest;
    if a == "" {
      assert s[1..] == rest;
    } else {
      SplitAfter(a[1..], c, rest);
      assert s[1..] == a[1..] + [c] + rest;
      assert [a[0]] + a[1..] == a;
    }
  }

  lemma {:induction false} SplitNone(a: string, c: char)
    requires c !in a
    ensures Split(a, c) == [a]
  {
    if a != "" {
      SplitNone(a[1..], c);
      assert [a[0]] + a[1..] == a;
    }
  }

  /** Splitting a file into lines gives back the lines it was printed from. */
  lemma {:induction false} SplitUnlines(lines: seq<string>)
    requires AllOneLine(lines)
    ensures Split(Unlines(lines), '\n') == lines + [""]
  {
    if lines != [] {
      SplitUnlines(lines[1..]);
      assert OneLine(lines[0]);
      SplitAfter(lines[0], '\n', Unlines(lines[1..]));
      assert [lines[0]] + lines[1..] == lines;
    }
  }

  /** Splitting distributes over a separator wherever it stands. */
  lemma {:induction false} SplitConcat(a: string, c: char, b: string)
    ensures Split(a + [c] + b, c) == Split(a, c) + Split(b, c)
  {
    var s := a + [c] + b;
    if a == "" {
      assert s[1..] == b;
    } else {
      SplitConcat(a[1..], c, b);
      assert s[1..] == a[1..] + [c] + b;
      AttachAppend(a[0], c, Split(a[1..], c), Split(b, c));
    }
  }

  lemma {:induction false} JoinSplit(s: string, c: char)
    ensures Join(Split(s, c), [c]) == s
  {
    if s != "" {
      JoinSplit(s[1..], c);
      var rest := Split(s[1..], c);
      assert s == [s[0]] + s[1..];
      if s[0] == c {
        assert ([""] + rest)[1..] == rest;
      } else {
        var parts := [[s[0]] + rest[0]] + rest[1..];
        assert parts[1..] == rest[1..];
        assert Join(parts, [c]) == [s[0]] + Join(rest, [c]);
      }
    }
  }

  lemma {:induction false} UnlinesAppend(a: seq<string>, b: seq<string>)
    ensures Unlines(a + b) == Unlines(a) + Unlines(b)
  {
    if a == [] {
      assert a + b == b;
    } else {
      UnlinesAppend(a[1..], b);
      assert (a + b)[1..] == a[1..] + b;
    }
  }

  /** Two files with the same text were printed from the same lines. */
  lemma UnlinesInjective(a: seq<string>, b: seq<string>)
    requires AllOneLine(a) && AllOneLine(b) && Unlines(a) == Unlines(b)
    ensures a == b
  {
    SplitUnlines(a);
    SplitUnlines(b);
    assert a == (a + [""])[..|a|] && b == (b + [""])[..|b|];
  }

  lemma {:induction false} SplitJoin(parts: seq<string>, c: char)
    requires |parts| > 0 && forall p :: p in parts ==> c !in p
    ensures Split(Join(parts, [c]), c) == parts
  {
    if |parts| == 1 {
      SplitNone(parts[0], c);
    } else {
      SplitJoin(parts[1..], c);
      SplitAfter(parts[0], c, Join(parts[1..], [c]));
      assert [parts[0]] + parts[1..] == parts;
    }
  }

  // ---------------------------------------------------------------------------
  // Searching
  // ---------------------------------------------------------------------------

  /** strings.Index(s, sep): the first position of sep in s, or -1. */
  function Index(s: string, sep: string): (i: int)
    ensures -1 <= i
    ensures 0 <= i ==> i + |sep| <= |s| && sep <= s[i..]
    ensures forall j :: 0 <= j <= |s| && (i < 0 || j < i) ==> !(sep <= s[j..])
  {
    if sep <= s then 0
    else if s == "" then -1
    else
      var r := Index(s[1..], sep);
      assert forall j :: 1 <= j <= |s| ==> s[j..] == s[1..][j - 1..];
      if r < 0 then -1 else r + 1
  }

  lemma IndexIs(s: string, sep: string, i: nat)
    requires i <= |s| && sep <= s[i..]
    requires forall j :: 0 <= j < i ==> !(sep <= s[j..])
    ensures Index(s, sep) == i
  {
  }

  lemma IndexAbsent(s: string, sep: string)
    requires sep != "" && sep[0] !in s
    ensures Index(s, sep) == -1
  {
    forall j | 0 <= j <= |s| ensures !(sep <= s[j..]) {
      assert j < |s| ==> s[j..][0] == s[j];
    }
  }

  /** strings.Cut(s, sep). */
  function Cut(s: string, sep: string): Option<(string, string)> {
    var i := Index(s, sep);
    if i < 0 then None else Some((s[..i], s[i + |sep|..]))
  }

  /** Cutting at a separator that starts with a character the head does not contain. */
  lemma CutAt(head: string, sep: string, tail: string)
    requires sep != "" && sep[0] !in head
    ensures Cut(head + sep + tail, sep) == Some((head, tail))
  {
    var s := head + sep + tail;
    assert s[|head|..] == sep + tail;
    forall j | 0 <= j < |head| ensures !(sep <= s[j..]) {
      assert s[j..][0] == head[j];
    }
    IndexIs(s, sep, |head|);
    assert s[..|head|] == head && s[|head| + |sep|..] == tail;
  }

  // ---------------------------------------------------------------------------
  // White space
  // ---------------------------------------------------------------------------

  /** unicode.IsSpace. */
  predicate IsSpace(c: char) {
    || c in "\t\n\r "
    || c == '\U{0b}' || c == '\U{0c}' || c == '\U{85}' || c == '\U{a0}' || c == '\U{1680}'
    || '\U{2000}' <= c <= '\U{200a}'
    || c == '\U{2028}' || c == '\U{2029}' || c == '\U{202f}' || c == '\U{205f}' || c == '\U{3000}'
  }

  function TrimLeft(s: string): (r: string)
    ensures |r| <= |s|
    ensures r != "" ==> !IsSpace(r[0])
  {
    if s != "" && IsSpace(s[0]) then TrimLeft(s[1..]) else s
  }

  function TrimRight(s: string): string {
    if s != "" && IsSpace(s[|s| - 1]) then TrimRight(s[..|s| - 1]) else s
  }

  /** strings.TrimSpace. */
  function TrimSpace(s: string): string { TrimRight(TrimLeft(s)) }

  function Word(s: string): (w: string)
    ensures |w| <= |s|
  {
    if s == "" || IsSpace(s[0]) then "" else [s[0]] + Word(s[1..])
  }

  /** strings.Fields. */
  function Fields(s: string): seq<string>
    decreases |s|
  {
    var t := TrimLeft(s);
    if t == "" then [] else [Word(t)] + Fields(t[|Word(t)|..])
  }

  lemma {:induction false} WordPlain(s: string)
    requires forall i :: 0 <= i < |s| ==> !IsSpace(s[i])
    ensures Word(s) == s
  {
    if s != "" {
      WordPlain(s[1..]);
    }
  }

  predicate Spaceless(s: string) { forall i :: 0 <= i < |s| ==> !IsSpace(s[i]) }

  lemma {:induction false} WordEnds(word: string, rest: string)
    requires Spaceless(word) && (rest == "" || IsSpace(rest[0]))
    ensures Word(word + rest) == word
  {
    if word == "" {
      assert word + rest == rest;
    } else {
      WordEnds(word[1..], rest);
      assert (word + rest)[1..] == word[1..] + rest;
    }
  }

  /** The first field is the first word, and the other fields are those of what follows it. */
  lemma FieldsNext(before: string, word: string, rest: string)
    requires AllSpace(before) && word != "" && Spaceless(word) && (rest == "" || IsSpace(rest[0]))
    ensures Fields(before + (word + rest)) == [word] + Fields(rest)
  {
    TrimBefore(before, word + rest);
    WordEnds(word, rest);
    assert (word + rest)[0] == word[0] && (word + rest)[|word|..] == rest;
  }

  lemma FieldsOfSpace(s: string)
    requires AllSpace(s)
    ensures Fields(s) == []
  {
    SpaceTrims(s);
  }

  lemma TrimPlain(s: string)
    requires s != "" && !IsSpace(s[0]) && !IsSpace(s[|s| - 1])
    ensures TrimSpace(s) == s
  {
  }

  predicate AllSpace(s: string) { forall i :: 0 <= i < |s| ==> IsSpace(s[i]) }

  /** Trimming takes the white space around a text off, and nothing else. */
  lemma TrimPadded(before: string, s: string, after: string)
    requires AllSpace(before) && AllSpace(after)
    requires s != "" ==> !IsSpace(s[0]) && !IsSpace(s[|s| - 1])
    ensures TrimSpace(before + s + after) == s
  {
    TrimBefore(before, s + after);
    assert before + s + after == before + (s + after);
    if s == "" {
      SpaceTrims(after);
      assert s + after == after;
    } else {
      assert (s + after)[0] == s[0];
      TrimAfter(s, after);
    }
  }

  lemma {:induction false} TrimBefore(before: string, s: string)
    requires AllSpace(before)
    ensures TrimLeft(before + s) == TrimLeft(s)
  {
    if before == "" {
      assert before + s == s;
    } else {
      TrimBefore(before[1..], s);
      assert (before + s)[1..] == before[1..] + s;
    }
  }

  lemma {:induction false} SpaceTrims(s: string)
    requires AllSpace(s)
    ensures TrimLeft(s) == "" && TrimSpace(s) == ""
  {
    if s != "" {
      SpaceTrims(s[1..]);
    }
  }

  lemma {:induction false} TrimAfter(s: string, after: string)
    requires AllSpace(after) && s != "" && !IsSpace(s[|s| - 1])
    ensures TrimRight(s + after) == s
  {
    if after == "" {
      assert s + after == s;
    } else {
      TrimAfter(s, after[..|after| - 1]);
      assert (s + after)[..|s + after| - 1] == s + after[..|after| - 1];
    }
  }

  // ---------------------------------------------------------------------------
  // Decimal numbers
  // ---------------------------------------------------------------------------

  function Digit(d: nat): (c: char)
    requires d < 10
    ensures '0' <= c <= '9' && c as int - '0' as int == d
  {
    '0' + d as char
  }

  /** fmt's %d for a non-negative number. */
  function Dec(n: nat): (s: string)
    ensures s != "" && AllDigits(s)
  {
    if n < 10 then [Digit(n)] else Dec(n / 10) + [Digit(n % 10)]
  }

  /** fmt's %d. */
  function DecInt(n: int): string { if n < 0 then "-" + Dec(-n) else Dec(n) }

  predicate AllDigits(s: string) { forall i :: 0 <= i < |s| ==> '0' <= s[i] <= '9' }

  function Value(s: string): nat
    requires AllDigits(s)
  {
    if s == "" then 0 else 10 * Value(s[..|s| - 1]) + (s[|s| - 1] as int - '0' as int)
  }

  const MAX_INT64: int := 0x7fff_ffff_ffff_ffff

  /** strconv.ParseInt(s, 10, 64), and strconv.Atoi on a 64-bit host. */
  function ParseInt(s: string): Option<int> {
    var signed := s != "" && (s[0] == '-' || s[0] == '+');
    var digits := if signed then s[1..] else s;
    if digits == "" || !AllDigits(digits) then None
    else
      var v: int := if signed && s[0] == '-' then -(Value(digits) as int) else Value(digits);
      if -MAX_INT64 - 1 <= v <= MAX_INT64 then Some(v) else None
  }

  lemma {:induction false} ValueDec(n: nat)
    ensures Value(Dec(n)) == n
  {
    if n >= 10 {
      ValueDec(n / 10);
      assert Dec(n)[..|Dec(n)| - 1] == Dec(n / 10);
    }
  }

  /** A printed number reads back as itself. */
  lemma ParseDec(n: nat)
    requires n <= MAX_INT64
    ensures ParseInt(Dec(n)) == Some(n)
  {
    ValueDec(n);
    assert '0' <= Dec(n)[0] <= '9';
  }

  lemma DecInjective(a: nat, b: nat)
    requires Dec(a) == Dec(b)
    ensures a == b
  {
    ValueDec(a);
    ValueDec(b);
  }

  lemma DecIntInjective(a: int, b: int)
    requires DecInt(a) == DecInt(b)
    ensures a == b
  {
    assert a >= 0 ==> '0' <= DecInt(a)[0] <= '9';
    assert b >= 0 ==> '0' <= DecInt(b)[0] <= '9';
    if a < 0 {
      assert DecInt(a)[1..] == Dec(-a) && DecInt(b)[1..] == Dec(-b);
      DecInjective(-a, -b);
    } else {
      DecInjective(a, b);
    }
  }

  /** Digits carry no white space, so trimming a printed number changes nothing. */
  lemma TrimDigits(s: string)
    requires s != "" && AllDigits(s)
    ensures TrimSpace(s) == s
  {
    assert '0' <= s[0] <= '9' && '0' <= s[|s| - 1] <= '9';
  }
}
