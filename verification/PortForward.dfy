/** Forwarded ports: from the text a client's settings hold to the listeners that are open. */
module PortForward {
  import opened Sets
  import opened Text
  import opened Amnezia
  import Params

  const MAX_FORWARDED_PORTS := 100

  /** A single port or an inclusive range. */
  datatype Spec = Spec(start: int, end: int)

  // ---------------------------------------------------------------------------
  // Parsing
  // ---------------------------------------------------------------------------

  function Commas(s: string): string {
    if s == "" then "" else [if s[0] == ';' then ',' else s[0]] + Commas(s[1..])
  }

  /** The trimmed tokens of the text. */
  function Tokens(input: string): seq<string> { Split(Commas(input), ',') }

  function ParsePortNumber(s: string): Option<int> {
    var n := ParseInt(s); if n.None? || n.value < 1 || n.value > 65535 then None else n
  }

  function ParsePortToken(tok: string): Option<Spec> {
    var cut := Cut(tok, "-");
    if cut.Some? then
      var start, end := ParsePortNumber(TrimSpace(cut.value.0)), ParsePortNumber(TrimSpace(cut.value.1));
      if start.None? || end.None? || start.value > end.value then None else Some(Spec(start.value, end.value))
    else
      var p := ParsePortNumber(tok);
      if p.None? then None else Some(Spec(p.value, p.value))
  }

  /** Blank and invalid tokens are dropped. */
  function SpecOf(token: string): Option<Spec> {
    var tok := TrimSpace(token); if tok == "" then None else ParsePortToken(tok)
  }

  /** The first occurrences, in order. */
  function Dedup<T(==,!new)>(s: seq<T>): (r: seq<T>)
    ensures forall i, j :: 0 <= i < j < |r| ==> r[i] != r[j]
    ensures forall x :: x in r <==> x in s
  {
    if s == [] then []
    else
      var r, last := Dedup(s[..|s| - 1]), s[|s| - 1];
      if last in r then r else r + [last]
  }

  lemma {:induction false} DedupPrefix<T(!new)>(a: seq<T>, b: seq<T>)
    ensures Dedup(a) <= Dedup(a + b)
    decreases |b|
  {
    if b == [] {
      assert a + b == a;
    } else {
      DedupPrefix(a, b[..|b| - 1]);
      assert (a + b)[..|a + b| - 1] == a + b[..|b| - 1];
    }
  }

  lemma DedupNext<T(!new)>(a: seq<T>, x: T)
    ensures Dedup(a + [x]) == if x in a then Dedup(a) else Dedup(a) + [x]
  {
    assert (a + [x])[..|a|] == a;
  }

  function ValidSpecs(tokens: seq<string>): seq<Spec> {
    if tokens == [] then []
    else
      var rest, spec := ValidSpecs(tokens[..|tokens| - 1]), SpecOf(tokens[|tokens| - 1]);
      if spec.None? then rest else rest + [spec.value]
  }

  function ForwardedSpecs(input: string): seq<Spec> { Dedup(ValidSpecs(Tokens(input))) }

  function SpecKey(s: Spec): string { DecInt(s.start) + "-" + DecInt(s.end) }

  predicate InRange(s: Spec) { 1 <= s.start <= s.end <= 65535 }

  lemma SpecInRange(token: string)
    ensures SpecOf(token).Some? ==> InRange(SpecOf(token).value)
  {
  }

  lemma KeyInjective(a: Spec, b: Spec)
    requires InRange(a) && InRange(b) && SpecKey(a) == SpecKey(b)
    ensures a == b
  {
    Params.RangeParses(a.start, a.end);
    Params.RangeParses(b.start, b.end);
    assert SpecKey(a) == Params.Range(a.start, a.end) && SpecKey(b) == Params.Range(b.start, b.end);
  }

  function Keys(specs: seq<Spec>): set<string> { set s | s in specs :: SpecKey(s) }

  predicate AllInRange(specs: seq<Spec>) { forall s :: s in specs ==> InRange(s) }

  /** A spec was seen before just when its printed form was. */
  lemma KeySeen(specs: seq<Spec>, spec: Spec)
    requires AllInRange(specs) && InRange(spec)
    ensures SpecKey(spec) in Keys(specs) <==> spec in specs
    ensures Keys(specs + [spec]) == Keys(specs) + {SpecKey(spec)} && AllInRange(specs + [spec])
  {
    if SpecKey(spec) in Keys(specs) {
      var s :| s in specs && SpecKey(s) == SpecKey(spec);
      KeyInjective(s, spec);
    }
    assert forall s :: s in specs + [spec] <==> s in specs || s == spec;
  }

  /** parseForwardedPorts; duplicates are told by their printed form. */
  method ParseForwardedPorts(input: string) returns (specs: seq<Spec>)
    ensures specs == ForwardedSpecs(input)
  {
    specs := [];
    var tokens := Tokens(input);
    var seen: set<string> := {};
    for i := 0 to |tokens|
      invariant specs == Dedup(ValidSpecs(tokens[..i])) && AllInRange(specs) && seen == Keys(specs)
    {
      ValidNext(tokens, i);
      var spec := SpecOf(tokens[i]);
      if spec.Some? {
        specs, seen := Admit(specs, seen, spec.value);
      }
    }
    assert tokens[..|tokens|] == tokens;
  }

  method Admit(specs: seq<Spec>, seen: set<string>, spec: Spec) returns (specs': seq<Spec>, seen': set<string>)
    requires seen == Keys(specs) && AllInRange(specs) && InRange(spec)
    ensures specs' == Added(specs, spec) && seen' == Keys(specs') && AllInRange(specs')
  {
    KeySeen(specs, spec);
    if SpecKey(spec) in seen {
      return specs, seen;
    }
    specs', seen' := specs + [spec], seen + {SpecKey(spec)};
  }

  function Added(specs: seq<Spec>, spec: Spec): seq<Spec> { if spec in specs then specs else specs + [spec] }

  lemma ValidNext(tokens: seq<string>, i: nat)
    requires i < |tokens|
    ensures SpecOf(tokens[i]).None? ==> ValidSpecs(tokens[..i + 1]) == ValidSpecs(tokens[..i])
    ensures SpecOf(tokens[i]).Some? ==> InRange(SpecOf(tokens[i]).value)
    ensures SpecOf(tokens[i]).Some? ==>
      Dedup(ValidSpecs(tokens[..i + 1])) == Added(Dedup(ValidSpecs(tokens[..i])), SpecOf(tokens[i]).value)
  {
    assert tokens[..i + 1][..i] == tokens[..i];
    SpecInRange(tokens[i]);
    if SpecOf(tokens[i]).Some? {
      DedupNext(ValidSpecs(tokens[..i]), SpecOf(tokens[i]).value);
    }
  }

  // ---------------------------------------------------------------------------
  // Expanding
  // ---------------------------------------------------------------------------

  predicate Covers(specs: seq<Spec>,
                   port: int) { exists i :: 0 <= i < |specs| && specs[i].start <= port <= specs[i].end }

  /** ForwardedPortsInclude. */
  method ForwardedPortsInclude(input: string, port: int) returns (r: bool)
    ensures r <==> Covers(ForwardedSpecs(input), port)
  {
    var specs := ParseForwardedPorts(input);
    r := AnyCovers(specs, port);
  }

  method AnyCovers(specs: seq<Spec>, port: int) returns (r: bool)
    ensures r <==> Covers(specs, port)
  {
    for i := 0 to |specs|
      invariant forall k :: 0 <= k < i ==> !(specs[k].start <= port <= specs[k].end)
    {
      if port >= specs[i].start && port <= specs[i].end {
        return true;
      }
    }
    r := false;
  }

  function Ports(start: int, end: int): seq<int>
    decreases end - start
  {
    if start > end then [] else Ports(start, end - 1) + [end]
  }

  /** Every port of every spec, in order, repeats included. */
  function AllPorts(specs: seq<Spec>): seq<int> {
    if specs == [] then [] else AllPorts(specs[..|specs| - 1]) + Ports(specs[|specs| - 1].start, specs[|specs| - 1].end)
  }

  lemma {:induction false} PortsAre(start: int, end: int)
    ensures forall p :: p in Ports(start, end) <==> start <= p <= end
    decreases end - start
  {
    if start <= end {
      PortsAre(start, end - 1);
    }
  }

  lemma {:induction false} AllPortsCovered(specs: seq<Spec>, p: int)
    ensures p in AllPorts(specs) <==> Covers(specs, p)
  {
    if specs != [] {
      var front, last := specs[..|specs| - 1], specs[|specs| - 1];
      AllPortsCovered(front, p);
      PortsAre(last.start, last.end);
      if Covers(front, p) {
        var i :| 0 <= i < |front| && front[i].start <= p <= front[i].end;
        assert specs[i].start <= p <= specs[i].end;
      }
      if Covers(specs, p) && !(last.start <= p <= last.end) {
        var i :| 0 <= i < |specs| && specs[i].start <= p <= specs[i].end;
        assert front[i].start <= p <= front[i].end;
      }
    }
  }

  function Capped<T>(s: seq<T>, n: nat): seq<T> { if |s| <= n then s else s[..n] }

  /** expandForwardedPorts: the first n distinct ports the text names, sorted. */
  function Expand(input: string, n: nat): seq<int> { Sorted(Capped(Dedup(AllPorts(ForwardedSpecs(input))), n)) }

  method ExpandForwardedPorts(input: string, limit: nat) returns (ports: seq<int>)
    ensures ports == Expand(input, limit)
  {
    var specs := ParseForwardedPorts(input);
    var found := CollectPorts(specs, limit);
    ports := SortInts(found);
  }

  function SetOf(s: seq<int>): set<int> { set x | x in s }

  lemma SetOfNext(s: seq<int>, x: int)
    ensures SetOf(s + [x]) == SetOf(s) + {x}
  {
  }

  /** The two loops, left as soon as the limit is reached. */
  method CollectPorts(specs: seq<Spec>, limit: nat) returns (ports: seq<int>)
    ensures ports == Capped(Dedup(AllPorts(specs)), limit)
  {
    ports := [];
    var seen: set<int> := {};
    for i := 0 to |specs|
      invariant ports == Dedup(AllPorts(specs[..i])) && |ports| <= limit && seen == SetOf(ports)
    {
      assert specs[..i + 1][..i] == specs[..i];
      var p := specs[i].start;
      assert AllPorts(specs[..i]) + Ports(p, p - 1) == AllPorts(specs[..i]);
      while p <= specs[i].end
        invariant p >= specs[i].start && (p <= specs[i].end + 1 || p == specs[i].start)
        invariant ports == Dedup(AllPorts(specs[..i]) + Ports(specs[i].start, p - 1))
        invariant |ports| <= limit && seen == SetOf(ports)
        decreases specs[i].end - p
      {
        if |ports| >= limit {
          StoppedEarly(specs, i, p, limit);
          return;
        }
        PortNext(AllPorts(specs[..i]), specs[i].start, p);
        SetOfNext(ports, p);
        if p !in seen {
          seen := seen + {p};
          ports := ports + [p];
        }
        p := p + 1;
      }
      assert Ports(specs[i].start, p - 1) == Ports(specs[i].start, specs[i].end);
    }
    assert specs[..|specs|] == specs;
  }

  lemma PortNext(before: seq<int>, start: int, p: int)
    requires start <= p
    ensures Dedup(before + Ports(start, p)) ==
      var so := before + Ports(start, p - 1); if p in so then Dedup(so) else Dedup(so) + [p]
  {
    assert before + Ports(start, p) == before + Ports(start, p - 1) + [p];
    DedupNext(before + Ports(start, p - 1), p);
  }

  lemma {:induction false} PortsSplit(start: int, p: int, end: int)
    requires start <= p <= end + 1
    ensures Ports(start, end) == Ports(start, p - 1) + Ports(p, end)
    decreases end - p
  {
    if p <= end {
      PortsSplit(start, p, end - 1);
      assert Ports(start, p - 1) + Ports(p, end - 1) + [end] == Ports(start, p - 1) + (Ports(p, end - 1) + [end]);
    }
  }

  lemma {:induction false} AllPortsSplit(specs: seq<Spec>, i: nat)
    requires i <= |specs|
    ensures AllPorts(specs[..i]) <= AllPorts(specs)
  {
    if i == |specs| {
      assert specs[..i] == specs;
    } else {
      AllPortsSplit(specs[..|specs| - 1], i);
      assert specs[..|specs| - 1][..i] == specs[..i];
    }
  }

  /** What was collected when the limit is reached is the start of the whole list. */
  lemma StoppedEarly(specs: seq<Spec>, i: nat, p: int, limit: nat)
    requires i < |specs| && specs[i].start <= p <= specs[i].end
    requires |Dedup(AllPorts(specs[..i]) + Ports(specs[i].start, p - 1))| == limit
    ensures Dedup(AllPorts(specs[..i]) + Ports(specs[i].start, p - 1)) == Capped(Dedup(AllPorts(specs)), limit)
  {
    var so := AllPorts(specs[..i]) + Ports(specs[i].start, p - 1);
    AllPortsBegin(specs, i, p);
    DedupPrefix(so, AllPorts(specs)[|so|..]);
    assert AllPorts(specs) == so + AllPorts(specs)[|so|..];
  }

  lemma AllPortsBegin(specs: seq<Spec>, i: nat, p: int)
    requires i < |specs| && specs[i].start <= p <= specs[i].end
    ensures AllPorts(specs[..i]) + Ports(specs[i].start, p - 1) <= AllPorts(specs)
  {
    var so := AllPorts(specs[..i]) + Ports(specs[i].start, p - 1);
    assert specs[..i + 1][..i] == specs[..i];
    PortsSplit(specs[i].start, p, specs[i].end);
    assert AllPorts(specs[..i + 1]) == so + Ports(p, specs[i].end);
    AllPortsSplit(specs, i + 1);
  }

  // ---------------------------------------------------------------------------
  // Sorting
  // ---------------------------------------------------------------------------

  function Insert(x: int, s: seq<int>): seq<int> {
    if s == [] || x <= s[0] then [x] + s else [s[0]] + Insert(x, s[1..])
  }

  /** sort.Ints. */
  function Sorted(s: seq<int>): seq<int> { if s == [] then [] else Insert(s[0], Sorted(s[1..])) }

  predicate Ascending(s: seq<int>) { forall i, j :: 0 <= i < j < |s| ==> s[i] <= s[j] }

  lemma {:induction false} InsertPermutes(x: int, s: seq<int>)
    ensures multiset(Insert(x, s)) == multiset(s) + multiset{x} && |Insert(x, s)| == |s| + 1
  {
    if s != [] && x > s[0] {
      InsertPermutes(x, s[1..]);
      assert s == [s[0]] + s[1..];
    } else {
      assert multiset([x] + s) == multiset{x} + multiset(s);
    }
  }

  lemma {:induction false} SortedPermutes(s: seq<int>)
    ensures multiset(Sorted(s)) == multiset(s) && |Sorted(s)| == |s|
  {
    if s != [] {
      SortedPermutes(s[1..]);
      InsertPermutes(s[0], Sorted(s[1..]));
      assert s == [s[0]] + s[1..];
    }
  }

  lemma {:induction false} InsertAscends(x: int, s: seq<int>)
    requires Ascending(s)
    ensures Ascending(Insert(x, s)) && forall y :: y in Insert(x, s) ==> y in s || y == x
  {
    if s != [] && x > s[0] {
      InsertAscends(x, s[1..]);
      var r := Insert(x, s[1..]);
      forall i | 0 <= i < |r| ensures s[0] <= r[i] {
        assert r[i] in r && (r[i] == x || r[i] in s[1..]);
      }
    }
  }

  lemma {:induction false} SortedAscends(s: seq<int>)
    ensures Ascending(Sorted(s))
  {
    if s != [] {
      SortedAscends(s[1..]);
      InsertAscends(s[0], Sorted(s[1..]));
    }
  }

  method SortInts(s: seq<int>) returns (r: seq<int>)
    ensures r == Sorted(s) && Ascending(r) && multiset(r) == multiset(s)
  {
    r := Sorted(s);
    SortedAscends(s);
    SortedPermutes(s);
  }

  // ---------------------------------------------------------------------------
  // What the expansion is
  // ---------------------------------------------------------------------------

  predicate StrictlyAscending(s: seq<int>) { forall i, j :: 0 <= i < j < |s| ==> s[i] < s[j] }

  /** The ports the text covers. */
  function Covered(input: string): set<int> { set p | 1 <= p <= 65535 && Covers(ForwardedSpecs(input), p) }

  lemma {:induction false} SpecsInRange(tokens: seq<string>)
    ensures forall s :: s in ValidSpecs(tokens) ==> InRange(s)
  {
    if tokens != [] {
      SpecsInRange(tokens[..|tokens| - 1]);
      SpecInRange(tokens[|tokens| - 1]);
    }
  }

  lemma CoveredIff(input: string, p: int)
    ensures p in Covered(input) <==> p in Dedup(AllPorts(ForwardedSpecs(input)))
  {
    var specs := ForwardedSpecs(input);
    AllPortsCovered(specs, p);
    SpecsInRange(Tokens(input));
    if Covers(specs, p) {
      var i :| 0 <= i < |specs| && specs[i].start <= p <= specs[i].end;
      assert specs[i] in specs;
    }
  }

  lemma {:induction false} DistinctSize(s: seq<int>)
    requires forall i, j :: 0 <= i < j < |s| ==> s[i] != s[j]
    ensures |SetOf(s)| == |s|
  {
    if s != [] {
      var front, last := s[..|s| - 1], s[|s| - 1];
      DistinctSize(front);
      SetOfNext(front, last);
      assert s == front + [last] && last !in front;
    }
  }

  lemma {:induction false} InsertStrict(x: int, s: seq<int>)
    requires StrictlyAscending(s) && x !in s
    ensures StrictlyAscending(Insert(x, s)) && forall y :: y in Insert(x, s) <==> y in s || y == x
  {
    if s != [] && x > s[0] {
      InsertStrict(x, s[1..]);
      var r := Insert(x, s[1..]);
      forall i | 0 <= i < |r| ensures s[0] < r[i] {
        assert r[i] in r && (r[i] == x || r[i] in s[1..]);
      }
    }
  }

  lemma {:induction false} DistinctSorted(s: seq<int>)
    requires forall i, j :: 0 <= i < j < |s| ==> s[i] != s[j]
    ensures StrictlyAscending(Sorted(s)) && forall y :: y in Sorted(s) <==> y in s
  {
    if s != [] {
      DistinctSorted(s[1..]);
      InsertStrict(s[0], Sorted(s[1..]));
    }
  }

  /** The expansion is strictly increasing, names only covered ports, and has as many of them
      as there are and the limit allows. */
  lemma ExpansionExact(input: string, n: nat)
    ensures StrictlyAscending(Expand(input, n))
    ensures forall p :: p in Expand(input, n) ==> p in Covered(input)
    ensures |Expand(input, n)| == if |Covered(input)| < n then |Covered(input)| else n
    ensures |Covered(input)| <= n ==> forall p :: p in Covered(input) ==> p in Expand(input, n)
  {
    var all := Dedup(AllPorts(ForwardedSpecs(input)));
    var kept := Capped(all, n);
    forall p ensures p in Covered(input) <==> p in all {
      CoveredIff(input, p);
    }
    DistinctSize(all);
    assert Covered(input) == SetOf(all);
    DistinctSorted(kept);
    SortedPermutes(kept);
  }

  /** Each port kept is lower than each covered port left out. */
  predicate Lowest(kept: set<int>, covered: set<int>) { forall p, q :: p in kept && q in covered - kept ==> p < q }

  predicate KeepsLowest(input: string, n: nat) { Lowest(SetOf(Expand(input, n)), Covered(input)) }

  /** The ports in the order the text first names them. */
  function FirstNamed(input: string): seq<int> { Dedup(AllPorts(ForwardedSpecs(input))) }

  /** No number after the first n is lower than one of them. */
  predicate LowestFirst(all: seq<int>, n: nat) { forall i, j :: 0 <= i < n <= j < |all| ==> all[i] < all[j] }

  lemma CappedIsLowest(all: seq<int>, n: nat)
    requires LowestFirst(all, n)
    ensures Lowest(SetOf(Capped(all, n)), SetOf(all))
  {
    var kept := Capped(all, n);
    forall p, q | p in SetOf(kept) && q in SetOf(all) - SetOf(kept) ensures p < q {
      var i :| 0 <= i < |kept| && kept[i] == p;
      var j :| 0 <= j < |all| && all[j] == q;
      assert forall k :: 0 <= k < |kept| ==> kept[k] in SetOf(kept);
    }
  }

  lemma LowestIsFirst(all: seq<int>, n: nat)
    requires forall i, j :: 0 <= i < j < |all| ==> all[i] != all[j]
    requires Lowest(SetOf(Capped(all, n)), SetOf(all))
    ensures LowestFirst(all, n)
  {
    var kept := Capped(all, n);
    forall i, j | 0 <= i < n <= j < |all| ensures all[i] < all[j] {
      assert kept[i] in SetOf(kept) && all[j] in SetOf(all) - SetOf(kept);
    }
  }

  lemma SameSet(a: seq<int>, b: seq<int>)
    requires forall y :: y in a <==> y in b
    ensures SetOf(a) == SetOf(b)
  {
    forall y ensures y in SetOf(a) <==> y in SetOf(b) {
      assert y in SetOf(a) <==> y in a;
      assert y in SetOf(b) <==> y in b;
    }
  }

  lemma ExpansionSet(input: string, n: nat)
    ensures SetOf(Expand(input, n)) == SetOf(Capped(FirstNamed(input), n))
    ensures Covered(input) == SetOf(FirstNamed(input))
  {
    var kept := Capped(FirstNamed(input), n);
    DistinctSorted(kept);
    SameSet(Sorted(kept), kept);
    forall p ensures p in Covered(input) <==> p in FirstNamed(input) {
      CoveredIff(input, p);
    }
  }

  /** The expansion holds the n lowest ports just when no port the text first names after its
      first n is lower than one of those. */
  lemma KeepsLowestIff(input: string, n: nat)
    ensures KeepsLowest(input, n) <==> LowestFirst(FirstNamed(input), n)
  {
    ExpansionSet(input, n);
    if LowestFirst(FirstNamed(input), n) {
      CappedIsLowest(FirstNamed(input), n);
    } else if KeepsLowest(input, n) {
      LowestIsFirst(FirstNamed(input), n);
    }
  }

  lemma {:induction false} PlainCommas(s: string)
    requires ';' !in s
    ensures Commas(s) == s
  {
    if s != "" {
      PlainCommas(s[1..]);
    }
  }

  /** Both separators part the text alike, wherever they stand, and nothing else does. */
  lemma TokensPart(a: string, c: char, b: string)
    requires c in ",;"
    ensures Tokens(a + [c] + b) == Tokens(a) + Tokens(b)
  {
    CommasAround(a, c, b);
    SplitConcat(Commas(a), ',', Commas(b));
  }

  lemma {:induction false} CommasAround(a: string, c: char, b: string)
    requires c in ",;"
    ensures Commas(a + [c] + b) == Commas(a) + [','] + Commas(b)
  {
    var s := a + [c] + b;
    if a == "" {
      assert s[1..] == b && Commas(a) + [','] + Commas(b) == [','] + Commas(b);
    } else {
      CommasAround(a[1..], c, b);
      assert s[1..] == a[1..] + [c] + b;
      var first, rest := [if a[0] == ';' then ',' else a[0]], Commas(a[1..]);
      assert first + (rest + [','] + Commas(b)) == first + rest + [','] + Commas(b);
    }
  }

  lemma TokenAlone(a: string)
    requires ',' !in a && ';' !in a
    ensures Tokens(a) == [a]
  {
    PlainCommas(a);
    SplitNone(a, ',');
  }

  /** A printed port is read with any white space around it, and only ports are. */
  lemma PortEntry(before: string, n: nat, after: string)
    requires AllSpace(before) && AllSpace(after) && n <= MAX_INT64
    ensures SpecOf(before + Dec(n) + after) == if 1 <= n <= 65535 then Some(Spec(n, n)) else None
  {
    ParseDec(n);
    TrimPadded(before, Dec(n), after);
    IndexAbsent(Dec(n), "-");
  }

  /** So is a range, with white space around its dash too, when its ends are ports in order. */
  lemma RangeEntry(before: string, a: nat, pad: string, pad': string, b: nat, after: string)
    requires AllSpace(before) && AllSpace(pad) && AllSpace(pad') && AllSpace(after) && a <= MAX_INT64 && b <= MAX_INT64
    ensures SpecOf(before + (Dec(a) + pad + "-" + (pad' + Dec(b))) + after) ==
      if 1 <= a <= b <= 65535 then Some(Spec(a, b)) else None
  {
    var tok := Dec(a) + pad + "-" + (pad' + Dec(b));
    assert tok != "" && !IsSpace(tok[0]) && !IsSpace(tok[|tok| - 1]) by {
      assert tok[0] == Dec(a)[0] && tok[|tok| - 1] == Dec(b)[|Dec(b)| - 1];
    }
    TrimPadded(before, tok, after);
    RangeToRead(a, pad, pad', b);
  }

  lemma RangeToRead(a: nat, pad: string, pad': string, b: nat)
    requires AllSpace(pad) && AllSpace(pad') && a <= MAX_INT64 && b <= MAX_INT64
    ensures ParsePortToken(Dec(a) + pad + "-" + (pad' + Dec(b))) ==
      if 1 <= a <= b <= 65535 then Some(Spec(a, b)) else None
  {
    NumberPadded(Dec(a) + pad, "", a, pad);
    NumberPadded(pad' + Dec(b), pad', b, "");
    NoDash(a, pad);
    CutAt(Dec(a) + pad, "-", pad' + Dec(b));
  }

  lemma NoDash(n: nat, pad: string)
    requires AllSpace(pad)
    ensures '-' !in Dec(n) + pad
  {
    assert !IsSpace('-') && '-' !in Dec(n);
  }

  lemma NumberPadded(s: string, before: string, n: nat, after: string)
    requires AllSpace(before) && AllSpace(after) && n <= MAX_INT64 && s == before + Dec(n) + after
    ensures ParsePortNumber(TrimSpace(s)) == if 1 <= n <= 65535 then Some(n as int) else None
  {
    TrimPadded(before, Dec(n), after);
    ParseDec(n);
  }

  /** Blank entries are passed over. */
  lemma BlankEntry(blank: string)
    requires AllSpace(blank)
    ensures SpecOf(blank) == None
  {
    SpaceTrims(blank);
  }

  lemma PortParses(n: nat)
    requires 1 <= n <= 65535
    ensures TrimSpace(Dec(n)) == Dec(n) && ParsePortNumber(Dec(n)) == Some(n as int)
  {
    TrimDigits(Dec(n));
    ParseDec(n);
  }

  lemma RangeToken(a: nat, b: nat)
    requires 1 <= a <= b <= 65535
    ensures SpecOf(Params.Range(a, b)) == Some(Spec(a, b))
  {
    var v := Params.Range(a, b);
    assert v[0] == Dec(a)[0] && v[|v| - 1] == Dec(b)[|Dec(b)| - 1];
    TrimPlain(v);
    CutAt(Dec(a), "-", Dec(b));
    PortParses(a);
    PortParses(b);
  }

  lemma SingleToken(c: nat)
    requires 1 <= c <= 65535
    ensures SpecOf(Dec(c)) == Some(Spec(c, c))
  {
    PortParses(c);
    IndexAbsent(Dec(c), "-");
  }

  lemma TokensOf(a: nat, b: nat, c: nat)
    ensures Tokens(Params.Range(a, b) + "," + Dec(c)) == [Params.Range(a, b), Dec(c)]
  {
    PlainCommas(Params.Range(a, b) + "," + Dec(c));
    SplitAfter(Params.Range(a, b), ',', Dec(c));
    SplitNone(Dec(c), ',');
  }

  lemma TwoSpecs(first: string, second: string, a: Spec, b: Spec)
    requires SpecOf(first) == Some(a) && SpecOf(second) == Some(b)
    ensures ValidSpecs([first, second]) == [a, b]
  {
    assert [first, second][..1] == [first] && [first][..0] == [];
    assert ValidSpecs([first]) == [] + [a];
  }

  /** A range and then a port. */
  lemma RangeThenPort(a: nat, b: nat, c: nat)
    requires 1 <= a <= b <= 65535 && 1 <= c <= 65535 && a < b
    ensures ForwardedSpecs(Params.Range(a, b) + "," + Dec(c)) == [Spec(a, b), Spec(c, c)]
  {
    TokensOf(a, b, c);
    RangeToken(a, b);
    SingleToken(c);
    TwoSpecs(Params.Range(a, b), Dec(c), Spec(a, b), Spec(c, c));
    DedupTwo(Spec(a, b), Spec(c, c));
  }

  lemma DedupTwo<T(!new)>(a: T, b: T)
    requires a != b
    ensures Dedup([a, b]) == [a, b]
  {
    DedupNext([], a);
    DedupNext([a], b);
    assert [] + [a] == [a] && [a] + [b] == [a, b];
  }

  lemma AllPortsTwo(a: int, b: int, c: int)
    ensures AllPorts([Spec(a, b), Spec(c, c)]) == Ports(a, b) + [c]
  {
    var specs := [Spec(a, b), Spec(c, c)];
    assert specs[..1] == [Spec(a, b)] && specs[..1][..0] == [];
    assert Ports(c, c) == [] + [c];
    assert AllPorts(specs[..1]) == [] + Ports(a, b);
  }

  lemma {:induction false} DedupPorts(start: int, end: int)
    requires start <= end + 1
    ensures Dedup(Ports(start, end)) == Ports(start, end) && |Ports(start, end)| == end + 1 - start
    decreases end - start
  {
    if start <= end {
      DedupPorts(start, end - 1);
      PortsAre(start, end - 1);
      DedupNext(Ports(start, end - 1), end);
    }
  }

  lemma FirstNamedTwo(a: nat, b: nat, c: nat)
    requires 1 <= c < a < b <= 65535
    ensures FirstNamed(Params.Range(a, b) + "," + Dec(c)) == Ports(a, b) + [c]
  {
    RangeThenPort(a, b, c);
    AllPortsTwo(a, b, c);
    DedupPorts(a, b);
    PortsAre(a, b);
    DedupNext(Ports(a, b), c);
  }

  /** A text that first names as many ports as the limit allows loses a lower one named later. */
  lemma LaterPortLost(a: nat, b: nat, c: nat)
    requires 1 <= c < a < b <= 65535
    ensures !KeepsLowest(Params.Range(a, b) + "," + Dec(c), b + 1 - a)
  {
    var input, n := Params.Range(a, b) + "," + Dec(c), b + 1 - a;
    FirstNamedTwo(a, b, c);
    DedupPorts(a, b);
    PortsAre(a, b);
    var all := FirstNamed(input);
    assert all[0] == Ports(a, b)[0] && all[0] in Ports(a, b) && all[n] == c;
    KeepsLowestIff(input, n);
  }

  lemma LateText()
    ensures Params.Range(2, 101) + "," + Dec(1) == "2-101,1"
  {
    assert Dec(2) == "2" && Dec(1) == "1";
    assert Dec(10) == Dec(1) + "0";
    assert Dec(101) == Dec(10) + "1";
  }

  /** At the panel's own limit: port 1 is dropped and port 101 kept. */
  lemma LowestPortLost()
    ensures !KeepsLowest("2-101,1", MAX_FORWARDED_PORTS)
  {
    LateText();
    LaterPortLost(2, 101, 1);
  }

  /** ExceedsForwardedPortsCap. */
  method ExceedsForwardedPortsCap(input: string) returns (r: bool)
    ensures r <==> |Covered(input)| > MAX_FORWARDED_PORTS
  {
    var ports := ExpandForwardedPorts(input, MAX_FORWARDED_PORTS + 1);
    ExpansionExact(input, MAX_FORWARDED_PORTS + 1);
    r := |ports| > MAX_FORWARDED_PORTS;
  }

  // ---------------------------------------------------------------------------
  // One interface's listeners
  // ---------------------------------------------------------------------------

  datatype Proto = Tcp | Udp

  datatype Key = Key(email: string, port: int, proto: Proto)

  /** The tunnel address a peer's AllowedIPs resolve to, if any. */
  type Resolve = seq<string> -> Option<string>

  function Targets(resolve: Resolve, peers: seq<Peer>): map<string, string> {
    if peers == [] then map[]
    else
      var rest, p := Targets(resolve, peers[..|peers| - 1]), peers[|peers| - 1];
      if p.email == "" || resolve(p.allowedIPs).None? then rest else rest[p.email := resolve(p.allowedIPs).value]
  }

  /** The one gate a listener comes from. */
  predicate Forwards(targets: map<string, string>, p: Peer) {
    p.email != "" && p.forwardedPorts != "" && p.email in targets
  }

  function ForwardingPeers(targets: map<string, string>, peers: seq<Peer>): seq<Peer> {
    if peers == [] then []
    else
      var front, p := ForwardingPeers(targets, peers[..|peers| - 1]), peers[|peers| - 1];
      if Forwards(targets, p) then front + [p] else front
  }

  /** The ports a peer's listeners are opened on. */
  function PeerPorts(p: Peer): seq<int> { Expand(p.forwardedPorts, MAX_FORWARDED_PORTS) }

  predicate Wants(targets: map<string, string>, peers: seq<Peer>, email: string, port: int) {
    exists p :: p in peers && Forwards(targets, p) && p.email == email && port in PeerPorts(p)
  }

  lemma {:induction false} ForwardingPeersAre(targets: map<string, string>, peers: seq<Peer>)
    ensures forall p :: p in ForwardingPeers(targets, peers) <==> p in peers && Forwards(targets, p)
  {
    if peers != [] {
      ForwardingPeersAre(targets, peers[..|peers| - 1]);
      assert peers == peers[..|peers| - 1] + [peers[|peers| - 1]];
    }
  }

  method DesiredPeerTargets(resolve: Resolve, peers: seq<Peer>) returns (out: map<string, string>)
    ensures out == Targets(resolve, peers)
  {
    out := map[];
    for i := 0 to |peers|
      invariant out == Targets(resolve, peers[..i])
    {
      assert peers[..i + 1][..i] == peers[..i];
      var target := resolve(peers[i].allowedIPs);
      if peers[i].email != "" && target.Some? {
        out := out[peers[i].email := target.value];
      }
    }
    assert peers[..|peers|] == peers;
  }

  method ForwardingPeersOf(resolve: Resolve, peers: seq<Peer>) returns (out: seq<Peer>)
    ensures out == ForwardingPeers(Targets(resolve, peers), peers)
  {
    var targets := DesiredPeerTargets(resolve, peers);
    out := [];
    for i := 0 to |peers|
      invariant out == ForwardingPeers(targets, peers[..i])
    {
      assert peers[..i + 1][..i] == peers[..i];
      if Forwards(targets, peers[i]) {
        out := out + [peers[i]];
      }
    }
    assert peers[..|peers|] == peers;
  }

  function KeysOf(email: string, ports: seq<int>): set<Key> {
    (set p | p in ports :: Key(email, p, Tcp)) + (set p | p in ports :: Key(email, p, Udp))
  }

  lemma KeysOfAre(email: string, ports: seq<int>, k: Key)
    ensures k in KeysOf(email, ports) <==> k.email == email && k.port in ports
  {
    match k.proto {
      case Tcp => assert k == Key(k.email, k.port, Tcp);
      case Udp => assert k == Key(k.email, k.port, Udp);
    }
  }

  function KeysFrom(forwarding: seq<Peer>): set<Key> {
    if forwarding == [] then {} else KeysOf(forwarding[0].email, PeerPorts(forwarding[0])) + KeysFrom(forwarding[1..])
  }

  predicate KeyOfPeer(p: Peer, email: string, port: int) { p.email == email && port in PeerPorts(p) }

  lemma {:induction false} KeyHasPeer(forwarding: seq<Peer>, k: Key)
    requires k in KeysFrom(forwarding)
    ensures exists p :: p in forwarding && KeyOfPeer(p, k.email, k.port)
  {
    var p := forwarding[0];
    KeysOfAre(p.email, PeerPorts(p), k);
    if k in KeysOf(p.email, PeerPorts(p)) {
      assert p in forwarding && KeyOfPeer(p, k.email, k.port);
    } else {
      KeyHasPeer(forwarding[1..], k);
      var q :| q in forwarding[1..] && KeyOfPeer(q, k.email, k.port);
      assert q in forwarding;
    }
  }

  lemma {:induction false} PeerHasKey(forwarding: seq<Peer>, p: Peer, k: Key)
    requires p in forwarding && KeyOfPeer(p, k.email, k.port)
    ensures k in KeysFrom(forwarding)
  {
    if p == forwarding[0] {
      KeysOfAre(p.email, PeerPorts(p), k);
    } else {
      PeerHasKey(forwarding[1..], p, k);
    }
  }

  /** The listener keys an instance wants. */
  function DesiredKeys(resolve: Resolve, peers: seq<Peer>): set<Key> {
    KeysFrom(ForwardingPeers(Targets(resolve, peers), peers))
  }

  /** Both protocols for each port of each peer that has an email, a port text and a target. */
  lemma DesiredKeysAre(resolve: Resolve, peers: seq<Peer>, k: Key)
    ensures k in DesiredKeys(resolve, peers) <==> Wants(Targets(resolve, peers), peers, k.email, k.port)
  {
    var targets := Targets(resolve, peers);
    var forwarding := ForwardingPeers(targets, peers);
    ForwardingPeersAre(targets, peers);
    if k in DesiredKeys(resolve, peers) {
      KeyHasPeer(forwarding, k);
      var p :| p in forwarding && KeyOfPeer(p, k.email, k.port);
      assert p in peers && Forwards(targets, p);
    }
    if Wants(targets, peers, k.email, k.port) {
      var p :| p in peers && Forwards(targets, p) && p.email == k.email && k.port in PeerPorts(p);
      PeerHasKey(forwarding, p, k);
    }
  }

  /** desiredPortForwardKeys. */
  method DesiredPortForwardKeys(resolve: Resolve, peers: seq<Peer>) returns (out: set<Key>)
    ensures out == DesiredKeys(resolve, peers)
  {
    var forwarding := ForwardingPeersOf(resolve, peers);
    out := {};
    for i := 0 to |forwarding|
      invariant out + KeysFrom(forwarding[i..]) == KeysFrom(forwarding)
    {
      assert forwarding[i..][1..] == forwarding[i + 1..] && forwarding[i..][0] == forwarding[i];
      var ports := ExpandForwardedPorts(forwarding[i].forwardedPorts, MAX_FORWARDED_PORTS);
      out := out + KeysOf(forwarding[i].email, ports);
    }
  }

  function FirstOwner(forwarding: seq<Peer>, port: int): Option<string> {
    if forwarding == [] then None
    else if port in PeerPorts(forwarding[0]) then Some(forwarding[0].email)
    else FirstOwner(forwarding[1..], port)
  }

  method ForwardedPortOwner(resolve: Resolve, peers: seq<Peer>, port: int) returns (owner: Option<string>)
    ensures owner == FirstOwner(ForwardingPeers(Targets(resolve, peers), peers), port)
  {
    var forwarding := ForwardingPeersOf(resolve, peers);
    for i := 0 to |forwarding|
      invariant FirstOwner(forwarding, port) == FirstOwner(forwarding[i..], port)
    {
      assert forwarding[i..][1..] == forwarding[i + 1..] && forwarding[i..][0] == forwarding[i];
      var ports := ExpandForwardedPorts(forwarding[i].forwardedPorts, MAX_FORWARDED_PORTS);
      if port in ports {
        return Some(forwarding[i].email);
      }
    }
    owner := None;
  }

  lemma {:induction false} FirstOwnerIs(forwarding: seq<Peer>, port: int)
    ensures FirstOwner(forwarding, port).Some? ==>
      exists p :: p in forwarding && KeyOfPeer(p, FirstOwner(forwarding, port).value, port)
    ensures FirstOwner(forwarding, port).None? ==> forall p :: p in forwarding ==> port !in PeerPorts(p)
  {
    if forwarding != [] {
      assert forwarding[0] in forwarding && forwarding == [forwarding[0]] + forwarding[1..];
      if port in PeerPorts(forwarding[0]) {
        assert KeyOfPeer(forwarding[0], forwarding[0].email, port);
      } else {
        FirstOwnerIs(forwarding[1..], port);
      }
    }
  }

  /** A port has an owner just when there is a listener key for it, and then one of the owner's. */
  lemma OwnerIffKey(resolve: Resolve, peers: seq<Peer>, port: int)
    ensures
      var owner := FirstOwner(ForwardingPeers(Targets(resolve, peers), peers), port);
      && (owner.Some? <==> exists k :: k in DesiredKeys(resolve, peers) && k.port == port)
      && (owner.Some? ==> Key(owner.value, port, Tcp) in DesiredKeys(resolve, peers))
      && (owner.Some? ==> Key(owner.value, port, Udp) in DesiredKeys(resolve, peers))
  {
    var forwarding := ForwardingPeers(Targets(resolve, peers), peers);
    var owner := FirstOwner(forwarding, port);
    FirstOwnerIs(forwarding, port);
    if owner.Some? {
      var p :| p in forwarding && KeyOfPeer(p, owner.value, port);
      PeerHasKey(forwarding, p, Key(owner.value, port, Tcp));
      PeerHasKey(forwarding, p, Key(owner.value, port, Udp));
    }
    forall k | k in DesiredKeys(resolve, peers) && k.port == port ensures owner.Some? {
      KeyHasPeer(forwarding, k);
    }
  }

  datatype Bind = Bind(key: Key, bound: bool)

  function Refused(binds: seq<Bind>): set<Key> { set b | b in binds && !b.bound :: b.key }

  function Bound(binds: seq<Bind>): set<Key> { set b | b in binds && b.bound :: b.key }

  lemma OneMoreBind(binds: seq<Bind>, b: Bind)
    ensures Refused(binds + [b]) == Refused(binds) + (if b.bound then {} else {b.key})
    ensures Bound(binds + [b]) == Bound(binds) + (if b.bound then {b.key} else {})
  {
    assert forall x :: x in binds + [b] <==> x in binds || x == b;
  }

  /** Each of these keys was tried once, and nothing else. */
  predicate Tried(binds: seq<Bind>, keys: set<Key>) {
    && (forall i, j :: 0 <= i < j < |binds| ==> binds[i].key != binds[j].key)
    && Refused(binds) !! Bound(binds) && Refused(binds) + Bound(binds) == keys
  }

  /** The binds tried for the keys done so far, and the listeners they have left open. */
  predicate Opening(before: set<Key>, now: set<Key>, news: seq<Bind>, done: set<Key>) {
    Tried(news, done) && now == before + Bound(news)
  }

  lemma TriedNext(binds: seq<Bind>, keys: set<Key>, b: Bind)
    requires Tried(binds, keys) && b.key !in keys
    ensures Tried(binds + [b], keys + {b.key})
  {
    OneMoreBind(binds, b);
    forall i | 0 <= i < |binds| ensures binds[i].key != b.key {
      assert binds[i] in binds && (binds[i].key in Refused(binds) || binds[i].key in Bound(binds));
    }
  }

  /** Every listener there was is still the same one. */
  predicate Kept(before: map<Key, nat>, now: map<Key, nat>) {
    forall k :: k in before ==> k in now && now[k] == before[k]
  }

  datatype Listening = Listening(listeners: map<Key, nat>, binds: seq<Bind>)

  /** What trying these keys has made of the listeners and of the log. */
  predicate Opened(a: Listening, b: Listening, news: seq<Bind>, done: set<Key>) {
    && b.binds == a.binds + news && Kept(a.listeners, b.listeners)
    && Opening(a.listeners.Keys, b.listeners.Keys, news, done)
  }

  lemma OpeningNext(before: set<Key>, now: set<Key>, news: seq<Bind>, done: set<Key>, b: Bind)
    requires Opening(before, now, news, done) && b.key !in done
    ensures Opening(before, now + (if b.bound then {b.key} else {}), news + [b], done + {b.key})
  {
    TriedNext(news, done, b);
    OneMoreBind(news, b);
  }

  lemma OpenedNext(a: Listening, b: Listening, c: Listening, news: seq<Bind>, done: set<Key>, bind: Bind)
    requires Opened(a, b, news, done) && bind.key !in done && c.binds == b.binds + [bind]
    requires Kept(b.listeners, c.listeners)
    requires c.listeners.Keys == b.listeners.Keys + (if bind.bound then {bind.key} else {})
    ensures Opened(a, c, news + [bind], done + {bind.key})
  {
    OpeningNext(a.listeners.Keys, b.listeners.Keys, news, done, bind);
    assert a.binds + news + [bind] == a.binds + (news + [bind]);
  }

  lemma OpenedAll(a: Listening, b: Listening, want: set<Key>, before: set<Key>, news: seq<Bind>)
    requires Opened(a, b, news, want - before) && a.listeners.Keys == before * want
    ensures b.listeners.Keys == want - Refused(news) && Tried(news, want - before)
    ensures b.binds == a.binds + news && Kept(a.listeners, b.listeners)
  {
  }

  lemma NotYetOpen(a: Listening, b: Listening, news: seq<Bind>, done: set<Key>, k: Key)
    requires Opened(a, b, news, done) && k !in a.listeners && k !in done
    ensures k !in b.listeners
  {
    assert k !in Bound(news);
  }

  class PortForwardSet {
    var peerTargets: map<string, string>
    /** The open listeners; every one ever opened has its own number. */
    var listeners: map<Key, nat>
    var closed: set<nat>
    var count: nat
    /** Every bind tried, and whether it succeeded. */
    ghost var binds: seq<Bind>

    constructor ()
      ensures listeners == map[] && peerTargets == map[] && closed == {} && Valid()
    {
      peerTargets, listeners, closed, count, binds := map[], map[], {}, 0, [];
    }

    /** No two keys share a listener, and none in the map is closed. */
    predicate Valid()
      reads this
    {
      && (forall k :: k in listeners ==> listeners[k] < count && listeners[k] !in closed)
      && (forall k, l :: k in listeners && l in listeners && listeners[k] == listeners[l] ==> k == l)
      && (forall n :: n in closed ==> n < count)
    }

    ghost function Now(): Listening
      reads this
    {
      Listening(listeners, binds)
    }

    /** openPortForwardListener; a port that cannot be bound gives none. */
    method OpenListener(key: Key) returns (ln: Option<nat>)
      modifies `count, `binds
      ensures binds == old(binds) + [Bind(key, ln.Some?)]
      ensures count >= old(count) && (ln.Some? ==> ln.value == old(count) < count)
    {
      if * {
        ln := None;
      } else {
        ln := Some(count);
        count := count + 1;
      }
      binds := binds + [Bind(key, ln.Some?)];
    }

    /** Afterwards the open listeners are the desired keys minus those whose bind was tried and
        refused in this call. Each missing key is tried once and no other; a listener that is
        still wanted stays the same, and everything else is closed. `news` are the binds tried. */
    method Reconcile(resolve: Resolve, peers: seq<Peer>) returns (ghost news: seq<Bind>)
      requires Valid()
      modifies this
      ensures Valid() && peerTargets == Targets(resolve, peers) && binds == old(binds) + news
      ensures Tried(news, DesiredKeys(resolve, peers) - old(listeners).Keys)
      ensures listeners.Keys == DesiredKeys(resolve, peers) - Refused(news)
      ensures forall k :: k in old(listeners) ==>
        if k in DesiredKeys(resolve, peers) then k in listeners && listeners[k] == old(listeners)[k]
        else old(listeners)[k] in closed
    {
      var targets := DesiredPeerTargets(resolve, peers);
      var want := DesiredPortForwardKeys(resolve, peers);
      peerTargets := targets;
      ghost var before := listeners.Keys;
      var missing := CloseUnwanted(want);
      ghost var start := Now();
      news := OpenEach(missing);
      OpenedAll(start, Now(), want, before, news);
    }

    /** Closes what is no longer wanted and names what is still to be opened. */
    method CloseUnwanted(want: set<Key>) returns (missing: set<Key>)
      requires Valid()
      modifies `listeners, `closed
      ensures Valid() && missing == want - listeners.Keys == want - old(listeners).Keys
      ensures listeners.Keys == old(listeners).Keys * want
      ensures forall k :: k in old(listeners) ==>
        if k in want then k in listeners && listeners[k] == old(listeners)[k] else old(listeners)[k] in closed
    {
      var gone := set k | k in listeners && k !in want :: listeners[k];
      ghost var before := listeners;
      listeners := map k | k in listeners && k in want :: listeners[k];
      closed := closed + gone;
      assert forall k :: k in before && k !in want ==> before[k] in gone;
      missing := want - listeners.Keys;
    }

    method OpenEach(keys: set<Key>) returns (ghost news: seq<Bind>)
      requires Valid() && keys !! listeners.Keys
      modifies `listeners, `count, `binds
      ensures Valid() && Opened(old(Now()), Now(), news, keys)
    {
      var todo := keys;
      news := [];
      ghost var start, done: set<Key> := Now(), {};
      while todo != {}
        invariant Valid() && done !! todo && done + todo == keys && start == old(Now())
        invariant Opened(start, Now(), news, done)
        decreases todo
      {
        var k := AnyOf(todo);
        news := OpenNext(k, start, news, done);
        done, todo := done + {k}, todo - {k};
      }
      assert done == keys;
    }

    method OpenNext(k: Key, ghost start: Listening, ghost news: seq<Bind>, ghost done: set<Key>)
      returns (ghost news': seq<Bind>)
      requires Valid() && Opened(start, Now(), news, done) && k !in start.listeners && k !in done
      modifies `listeners, `count, `binds
      ensures Valid() && Opened(start, Now(), news', done + {k})
    {
      NotYetOpen(start, Now(), news, done, k);
      ghost var before := Now();
      ghost var b := OpenOne(k);
      OpenedNext(start, before, Now(), news, done, b);
      news' := news + [b];
    }

    method OpenOne(k: Key) returns (ghost b: Bind)
      requires Valid() && k !in listeners
      modifies `listeners, `count, `binds
      ensures Valid() && b.key == k && binds == old(binds) + [b]
      ensures listeners.Keys == old(listeners).Keys + (if b.bound then {k} else {})
      ensures Kept(old(listeners), listeners)
    {
      var ln := OpenListener(k);
      b := Bind(k, ln.Some?);
      if ln.Some? {
        listeners := listeners[k := ln.value];
      }
    }

    method Close()
      requires Valid()
      modifies this
      ensures Valid() && listeners == map[]
      ensures forall k :: k in old(listeners) ==> old(listeners)[k] in closed
    {
      var gone := set k | k in listeners :: listeners[k];
      closed := closed + gone;
      listeners := map[];
    }
  }

}
