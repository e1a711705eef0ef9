/** What the packet filter makes of the rules the kernel-interface manager installs: which packets
    its FORWARD rules accept, and which sources its NAT chain hides. */
module KernelFilter {
  import opened Text
  import opened KernelConfig
  import opened KernelHost
  import opened KernelSpec

  // ---------------------------------------------------------------------------
  // FORWARD
  // ---------------------------------------------------------------------------

  /** A forwarded packet; `established` says that conntrack knows it as related or established. */
  datatype Packet = Packet(inn: string, out: string, established: bool)

  /** What a rule does with a packet, by its words two at a time: its target, if all it asks holds. */
  function Target(r: Rule, p: Packet): Option<string> {
    if |r| < 2 then None
    else if r[0] == "-j" then Some(r[1])
    else if r[0] == "-i" && r[1] != p.inn then None
    else if r[0] == "-o" && r[1] != p.out then None
    else if r[0] == "--ctstate" && !p.established then None
    else Target(r[2..], p)
  }

  /** The first rule that takes the packet decides. */
  function Verdict(chain: seq<Rule>, p: Packet): Option<string> {
    if chain == [] then None
    else if Target(chain[0], p).Some? then Target(chain[0], p)
    else Verdict(chain[1..], p)
  }

  predicate Outbound(f: ForwardRules, p: Packet) { p.inn == f.tunnel && p.out == f.egress }

  predicate Reply(f: ForwardRules, p: Packet) { p.inn == f.egress && p.out == f.tunnel && p.established }

  lemma EndTarget(r: Rule, p: Packet)
    requires |r| == 6 && r[0] == "-m" && r[2] == "--comment" && r[4] == "-j"
    ensures Target(r, p) == Some(r[5])
  {
    assert r[2..][0] == r[2] && r[2..][2..] == r[4..] && r[4..][0] == r[4] && r[4..][1] == r[5];
    assert Target(r[2..], p) == Target(r[4..], p);
  }

  lemma PairTarget(r: Rule, p: Packet)
    requires |r| >= 4 && r[0] == "-i" && r[2] == "-o"
    ensures Target(r, p) == if r[1] == p.inn && r[3] == p.out then Target(r[4..], p) else None
  {
    assert r[2..][0] == r[2] && r[2..][1] == r[3] && r[2..][2..] == r[4..];
  }

  lemma StateTarget(r: Rule, p: Packet)
    requires |r| >= 4 && r[0] == "-m" && r[2] == "--ctstate"
    ensures Target(r, p) == if p.established then Target(r[4..], p) else None
  {
    assert r[2..][0] == r[2] && r[2..][2..] == r[4..];
  }

  /** The first rule accepts what leaves the tunnel for the egress. */
  lemma OutboundAccepted(f: ForwardRules, p: Packet)
    requires f.egress != ""
    ensures Target(Rules(f)[0], p) == if Outbound(f, p) then Some("ACCEPT") else None
  {
    var r := Rules(f)[0];
    PairTarget(r, p);
    EndTarget(r[4..], p);
  }

  /** The second accepts the answers, and only these. */
  lemma ReplyAccepted(f: ForwardRules, p: Packet)
    requires f.egress != ""
    ensures Target(Rules(f)[1], p) == if Reply(f, p) then Some("ACCEPT") else None
  {
    var r := Rules(f)[1];
    PairTarget(r, p);
    StateTarget(r[4..], p);
    assert r[4..][4..] == r[8..];
    EndTarget(r[8..], p);
  }

  /** With the inbound's rules above all others, as an Ensure without failures leaves them, what
      leaves the tunnel and the answers to it pass, whatever the rest of the chain says; every
      other packet is left to the rest. */
  lemma TunnelTrafficPasses(f: ForwardRules, rest: seq<Rule>, p: Packet)
    requires f.egress != ""
    ensures Verdict(Stacked(f) + rest, p) ==
      if Outbound(f, p) || Reply(f, p) then Some("ACCEPT") else Verdict(rest, p)
  {
    OutboundAccepted(f, p);
    ReplyAccepted(f, p);
    var chain := Stacked(f) + rest;
    assert chain[0] == Rules(f)[1] && chain[1..][0] == Rules(f)[0] && chain[1..][1..] == rest;
  }

  // ---------------------------------------------------------------------------
  // NAT
  // ---------------------------------------------------------------------------

  const SADDR := "\t\tip saddr "
  const OIFNAME := " oifname \""
  const MASQUERADE := "\" masquerade"

  /** The source prefix and the interface of a masquerade line. */
  function Masquerade(line: string): Option<(string, string)> {
    if !(SADDR <= line) then None
    else
      var at := Cut(line[|SADDR|..], OIFNAME);
      if at.None? then None
      else
        var end := Cut(at.value.1, MASQUERADE);
        if end.None? || end.value.1 != "" then None else Some((at.value.0, end.value.0))
  }

  function Masquerades(lines: seq<string>): seq<(string, string)> {
    if lines == [] then []
    else
      var m := Masquerade(lines[0]);
      if m.None? then Masquerades(lines[1..]) else [m.value] + Masquerades(lines[1..])
  }

  /** Each subnet of the tunnel, out of the egress. */
  function Hidden(ps: seq<Prefix>, egress: string): seq<(string, string)> {
    if ps == [] then [] else [(ps[0].Masked().Show(), egress)] + Hidden(ps[1..], egress)
  }

  function MasqueradeLine(p: Prefix, egress: string): string {
    "\t\tip saddr " + p.Masked().Show() + " oifname \"" + egress + "\" masquerade"
  }

  function LinesOf(ps: seq<Prefix>, egress: string): seq<string> {
    if ps == [] then [] else [MasqueradeLine(ps[0], egress)] + LinesOf(ps[1..], egress)
  }

  lemma {:induction false} LinesPrinted(ps: seq<Prefix>, egress: string)
    ensures MasqueradeLines(ps, egress) == Unlines(LinesOf(ps, egress))
  {
    if ps != [] {
      LinesPrinted(ps[1..], egress);
      var line := MasqueradeLine(ps[0], egress);
      assert LinesOf(ps, egress)[1..] == LinesOf(ps[1..], egress);
      assert line + "\n" == "\t\tip saddr " + ps[0].Masked().Show() + " oifname \"" + egress + "\" masquerade\n";
    }
  }

  lemma DigitsAreClean(n: nat)
    ensures ' ' !in Dec(n) && '\n' !in Dec(n)
  {
    assert AllDigits(Dec(n));
    assert forall i :: 0 <= i < |Dec(n)| ==> Dec(n)[i] >= '0';
  }

  lemma ShownIsClean(p: Prefix)
    ensures ' ' !in p.Show() && '\n' !in p.Show()
  {
    DigitsAreClean(p.a); DigitsAreClean(p.b); DigitsAreClean(p.c); DigitsAreClean(p.d); DigitsAreClean(p.bits);
  }

  lemma EgressIsClean(egress: string)
    requires ValidInterfaceName(egress)
    ensures '"' !in egress && '\n' !in egress
  {
    assert forall i :: 0 <= i < |egress| ==> InterfaceNameChar(egress[i]);
    assert !InterfaceNameChar('"') && !InterfaceNameChar('\n');
  }

  lemma LineReadsBack(p: Prefix, egress: string)
    requires ValidInterfaceName(egress)
    ensures Masquerade(MasqueradeLine(p, egress)) == Some((p.Masked().Show(), egress))
  {
    var shown, line := p.Masked().Show(), MasqueradeLine(p, egress);
    ShownIsClean(p.Masked());
    EgressIsClean(egress);
    assert OIFNAME[0] == ' ' && MASQUERADE[0] == '"';
    assert line == SADDR + (shown + OIFNAME + (egress + MASQUERADE + ""));
    assert line[|SADDR|..] == shown + OIFNAME + (egress + MASQUERADE + "");
    CutAt(shown, OIFNAME, egress + MASQUERADE + "");
    CutAt(egress, MASQUERADE, "");
  }

  lemma LineIsClean(p: Prefix, egress: string)
    requires ValidInterfaceName(egress)
    ensures OneLine(MasqueradeLine(p, egress))
  {
    ShownIsClean(p.Masked());
    EgressIsClean(egress);
    assert OneLine("\t\tip saddr ") && OneLine(" oifname \"") && OneLine("\" masquerade");
  }

  lemma MasqueradesCons(line: string, m: (string, string), rest: seq<string>)
    requires Masquerade(line) == Some(m)
    ensures Masquerades([line] + rest) == [m] + Masquerades(rest)
  {
    assert ([line] + rest)[1..] == rest;
  }

  lemma HiddenCons(m: (string, string), hidden: seq<(string, string)>, rest: seq<(string, string)>)
    ensures [m] + (hidden + rest) == [m] + hidden + rest
  {
  }

  lemma ListCons(line: string, lines: seq<string>, rest: seq<string>)
    ensures [line] + lines + rest == [line] + (lines + rest)
  {
  }

  lemma {:induction false} LinesReadBack(ps: seq<Prefix>, egress: string, rest: seq<string>)
    requires ValidInterfaceName(egress)
    ensures Masquerades(LinesOf(ps, egress) + rest) == Hidden(ps, egress) + Masquerades(rest)
  {
    if ps == [] {
      assert LinesOf(ps, egress) + rest == rest && Hidden(ps, egress) + Masquerades(rest) == Masquerades(rest);
    } else {
      var line, m := MasqueradeLine(ps[0], egress), (ps[0].Masked().Show(), egress);
      LinesReadBack(ps[1..], egress, rest);
      LineReadsBack(ps[0], egress);
      ListCons(line, LinesOf(ps[1..], egress), rest);
      MasqueradesCons(line, m, LinesOf(ps[1..], egress) + rest);
      HiddenCons(m, Hidden(ps[1..], egress), Masquerades(rest));
    }
  }

  lemma {:induction false} LinesAreClean(ps: seq<Prefix>, egress: string)
    requires ValidInterfaceName(egress)
    ensures AllOneLine(LinesOf(ps, egress))
  {
    if ps != [] {
      LinesAreClean(ps[1..], egress);
      LineIsClean(ps[0], egress);
    }
  }

  const FIRST := "\tchain postrouting {"
  const HOOK := "\t\ttype nat hook " + "postrouting " + "priority 100; " + "policy accept;"
  const LAST := "\t}"

  lemma LastLine()
    ensures Unlines([LAST]) == "\t}\n"
  {
    var none: seq<string> := [];
    assert [LAST][1..] == none && Unlines(none) == "";
  }

  lemma Grouped(first: string, hook: string, body: string, last: string)
    ensures first + "\n" + hook + "\n" + body + last == first + ['\n'] + (hook + ['\n'] + (body + last))
  {
  }

  lemma ChainIsLines(ps: seq<Prefix>, egress: string)
    ensures NatChain(ps, egress) == FIRST + ['\n'] + (HOOK + ['\n'] + Unlines(LinesOf(ps, egress) + [LAST]))
  {
    LinesPrinted(ps, egress);
    UnlinesAppend(LinesOf(ps, egress), [LAST]);
    LastLine();
    assert "\tchain postrouting {\n" == FIRST + "\n";
    Grouped(FIRST, HOOK, MasqueradeLines(ps, egress), "\t}\n");
  }

  lemma ChainSplits(first: string, hook: string, tail: seq<string>)
    requires OneLine(first) && OneLine(hook) && AllOneLine(tail)
    ensures Split(first + ['\n'] + (hook + ['\n'] + Unlines(tail)), '\n') == [first, hook] + (tail + [""])
  {
    SplitAfter(first, '\n', hook + ['\n'] + Unlines(tail));
    SplitAfter(hook, '\n', Unlines(tail));
    SplitUnlines(tail);
    assert [first] + ([hook] + (tail + [""])) == [first, hook] + (tail + [""]);
  }

  lemma SkipTwo(a: string, b: string, rest: seq<string>)
    requires Masquerade(a).None? && Masquerade(b).None?
    ensures Masquerades([a, b] + rest) == Masquerades(rest)
  {
    assert ([a, b] + rest)[1..] == [b] + rest && ([b] + rest)[1..] == rest;
  }

  /** The chain hooks source NAT and hides exactly the subnets of the tunnel's addresses, out of the
      egress. */
  lemma NatReadsBack(ps: seq<Prefix>, egress: string)
    requires ValidInterfaceName(egress)
    ensures var lines := Split(NatChain(ps, egress), '\n');
      && |lines| > 2 && lines[1] == "\t\ttype nat hook " + "postrouting " + "priority 100; " + "policy accept;"
      && Masquerades(lines) == Hidden(ps, egress)
  {
    var tail := LinesOf(ps, egress) + [LAST];
    ChainIsLines(ps, egress);
    LinesAreClean(ps, egress);
    TailIsClean(LinesOf(ps, egress));
    ChainSplits(FIRST, HOOK, tail);
    NoMasquerade();
    SkipTwo(FIRST, HOOK, tail + [""]);
    assert tail + [""] == LinesOf(ps, egress) + [LAST, ""];
    LinesReadBack(ps, egress, [LAST, ""]);
    var none: seq<string> := [];
    SkipTwo(LAST, "", none);
    assert [LAST, ""] + none == [LAST, ""];
  }

  lemma TailIsClean(lines: seq<string>)
    requires AllOneLine(lines)
    ensures AllOneLine(lines + [LAST]) && OneLine(FIRST) && OneLine(HOOK)
  {
    assert OneLine("\t\ttype nat hook ") && OneLine("postrouting ");
    assert OneLine("priority 100; ") && OneLine("policy accept;");
  }

  lemma NoMasquerade()
    ensures Masquerade(FIRST).None? && Masquerade(HOOK).None? && Masquerade(LAST).None? && Masquerade("").None?
  {
    assert SADDR[1] == '\t' && SADDR[2] == 'i' && FIRST[1] == 'c' && HOOK[2] == 't' && LAST[1] == '}';
  }

  // ---------------------------------------------------------------------------
  // The subnet of an address
  // ---------------------------------------------------------------------------

  function Pow2(n: nat): (p: nat)
    ensures p > 0
  {
    if n == 0 then 1 else 2 * Pow2(n - 1)
  }

  /** The address as a number. */
  function Number(p: Prefix): nat { ((p.a * 256 + p.b) * 256 + p.c) * 256 + p.d }

  predicate Octets(p: Prefix) { p.a < 256 && p.b < 256 && p.c < 256 && p.d < 256 && p.bits <= 32 }

  /** The address and the prefix agree in the prefix's leading bits. */
  predicate Within(v: nat, p: Prefix)
    requires p.bits <= 32
  {
    v / Pow2(32 - p.bits) == Number(p) / Pow2(32 - p.bits)
  }

  lemma Multiple(k: int, p: nat)
    ensures (k >= 1 ==> k * p >= p) && (k <= -1 ==> k * p + p <= 0)
  {
  }

  lemma Distributed(a: int, b: int, p: nat)
    ensures (a - b) * p == a * p - b * p
  {
  }

  lemma DivIs(v: nat, p: nat, q: nat, r: nat)
    requires v == q * p + r && r < p
    ensures v / p == q && v % p == r
  {
    var q', r' := v / p, v % p;
    assert v == q' * p + r' && 0 <= r' < p;
    Distributed(q, q', p);
    Multiple(q - q', p);
  }

  /** Clearing n bits rounds down to a multiple of 2^n. */
  lemma Doubled(q: nat, half: nat)
    ensures q * (2 * half) == 2 * (q * half)
  {
  }

  lemma {:induction false} ClearedIs(v: nat, n: nat)
    ensures ClearLow(v, n) == v / Pow2(n) * Pow2(n) <= v
  {
    if n > 0 {
      var half := Pow2(n - 1);
      var q, r := v / 2 / half, v / 2 % half;
      ClearedIs(v / 2, n - 1);
      Doubled(q, half);
      DivIs(v, 2 * half, q, 2 * r + v % 2);
    }
  }

  lemma Recombined(m: nat)
    requires m < 0x1_0000_0000
    ensures Number(Prefix(m / 0x100_0000, m / 0x1_0000 % 256, m / 256 % 256, m % 256, 0)) == m
    ensures m / 0x100_0000 < 256
  {
    var x, y := m / 256, m / 0x1_0000;
    assert m == x * 256 + m % 256;
    assert y == x / 256 && x == y * 256 + x % 256;
    assert m / 0x100_0000 == y / 256 && y == y / 256 * 256 + y % 256;
  }

  lemma NumberBound(p: Prefix)
    requires Octets(p)
    ensures Number(p) < 0x1_0000_0000
  {
  }

  lemma SameQuotient(v: nat, p: nat)
    requires p > 0
    ensures v / p * p / p == v / p && v / p * p % p == 0
  {
    DivIs(v / p * p, p, v / p, 0);
  }

  /** A masked prefix holds the same addresses and has no bit set below its length. */
  lemma MaskedIsSubnet(p: Prefix, v: nat)
    requires Octets(p)
    ensures var m := p.Masked();
      Octets(m) && m.bits == p.bits && (Within(v, m) <==> Within(v, p)) && Number(m) % Pow2(32 - p.bits) == 0
  {
    if p.bits < 32 {
      var n := 32 - p.bits;
      ClearedIs(Number(p), n);
      NumberBound(p);
      Recombined(ClearLow(Number(p), n));
      SameQuotient(Number(p), Pow2(n));
    }
  }

  // ---------------------------------------------------------------------------
  // Addresses
  // ---------------------------------------------------------------------------

  /** A dotted address and its prefix length, as they are read. */
  datatype Read = Read(a: Option<int>, b: Option<int>, c: Option<int>, d: Option<int>, bits: Option<int>)

  function ReadPrefix(s: string): Option<Read> {
    var cut := Cut(s, "/");
    if cut.None? then None
    else
      var parts := Split(cut.value.0, '.');
      if |parts| != 4 then None
      else Some(Read(ParseInt(parts[0]), ParseInt(parts[1]), ParseInt(parts[2]), ParseInt(parts[3]),
                     ParseInt(cut.value.1)))
  }

  function AsRead(p: Prefix): Read { Read(Some(p.a), Some(p.b), Some(p.c), Some(p.d), Some(p.bits)) }

  /** A printed prefix reads back as its four octets and its length. */
  lemma ShownReadsBack(p: Prefix)
    requires Octets(p)
    ensures ReadPrefix(p.Show()) == Some(AsRead(p))
  {
    var host := Dec(p.a) + "." + Dec(p.b) + "." + Dec(p.c) + "." + Dec(p.d);
    Quad(Dec(p.a), Dec(p.b), Dec(p.c), Dec(p.d));
    CutAt(host, "/", Dec(p.bits));
    ParseDec(p.a);
    ParseDec(p.b);
    ParseDec(p.c);
    ParseDec(p.d);
    ParseDec(p.bits);
  }

  lemma Quad(a: string, b: string, c: string, d: string)
    requires AllDigits(a) && AllDigits(b) && AllDigits(c) && AllDigits(d)
    ensures Split(a + "." + b + "." + c + "." + d, '.') == [a, b, c, d]
    ensures '/' !in a + "." + b + "." + c + "." + d
  {
    Part(a, b);
    Part(a + "." + b, c);
    Part(a + "." + b + "." + c, d);
    SplitNone(a, '.');
    SplitNone(b, '.');
    SplitNone(c, '.');
    SplitNone(d, '.');
  }

  lemma Part(a: string, b: string)
    requires AllDigits(b) && '/' !in a
    ensures Split(a + "." + b, '.') == Split(a, '.') + Split(b, '.') && '/' !in a + "." + b
  {
    assert "." == ['.'];
    SplitConcat(a, '.', b);
  }

  // ---------------------------------------------------------------------------
  // What an inbound's spec comes to
  // ---------------------------------------------------------------------------

  /** The link is to get the inbound's own addresses, in order. */
  lemma SpecAddresses(d: Desired, i: nat)
    requires SpecOf(d).Ok? && i < |d.addresses.value| && Octets(d.addresses.value[i])
    ensures |SpecOf(d).value.addresses| == |d.addresses.value|
    ensures ReadPrefix(SpecOf(d).value.addresses[i]) == Some(AsRead(d.addresses.value[i]))
  {
    ShownPrefixes(d.addresses.value);
    ShownAt(d.addresses.value, i);
    ShownReadsBack(d.addresses.value[i]);
  }

  lemma {:induction false} ShownAt(ps: seq<Prefix>, i: nat)
    requires i < |ps|
    ensures i < |ShowAll(ps)| && ShowAll(ps)[i] == ps[i].Show()
  {
    if i > 0 {
      ShownAt(ps[1..], i - 1);
    }
  }

  /** Without Xray a spec hides the subnet of each address behind the egress and lets its own
      tunnel's traffic through it; with Xray it does neither. */
  lemma SpecFilters(d: Desired, rest: seq<Rule>, p: Packet)
    requires SpecOf(d).Ok?
    ensures var s := SpecOf(d).value;
      if d.routeThroughXray then s.chain == "" && s.forward == NO_FORWARD
      else
        && Masquerades(Split(s.chain, '\n')) == Hidden(d.addresses.value, Egress(d))
        && s.forward.egress == (if d.egress == "" then d.detected else d.egress)
        && (p.inn == OwnedInterfaceName(d.inst.id) && p.out == s.forward.egress ==>
              Verdict(Stacked(s.forward) + rest, p) == Some("ACCEPT"))
        && (p.out == OwnedInterfaceName(d.inst.id) && p.inn == s.forward.egress && p.established ==>
              Verdict(Stacked(s.forward) + rest, p) == Some("ACCEPT"))
  {
    if !d.routeThroughXray {
      NatReadsBack(d.addresses.value, Egress(d));
      TunnelTrafficPasses(SpecOf(d).value.forward, rest, p);
    }
  }

  lemma {:induction false} DecLength(n: nat, k: nat)
    requires k > 0
    ensures |Dec(n)| <= k <==> n < Pow10(k)
    decreases k
  {
    if n < 10 {
      PowGrows(k);
    } else if k == 1 {
      assert |Dec(n)| == |Dec(n / 10)| + 1;
    } else {
      DecLength(n / 10, k - 1);
      assert Pow10(k) == 10 * Pow10(k - 1);
    }
  }

  function Pow10(k: nat): nat { if k == 0 then 1 else 10 * Pow10(k - 1) }

  lemma {:induction false} PowGrows(k: nat)
    requires k > 0
    ensures Pow10(k) >= 10
  {
    if k > 1 {
      PowGrows(k - 1);
    }
  }

  /** The kernel's limit of fifteen characters leaves room for ids of eight digits. */
  lemma NameValidIff(id: int)
    requires id > 0
    ensures ValidInterfaceName(OwnedInterfaceName(id)) <==> id < 100_000_000
  {
    var name, digits := OwnedInterfaceName(id), Dec(id);
    assert name == "xui-awg" + digits && |"xui-awg"| == 7;
    DecLength(id, 8);
    assert Pow10(4) == 10_000 && Pow10(6) == 1_000_000 && Pow10(8) == 100_000_000;
    forall i | 0 <= i < |name| ensures InterfaceNameChar(name[i]) {
      if i >= 7 {
        assert name[i] == digits[i - 7];
      } else {
        assert name[i] == "xui-awg"[i] && '-' in "_.@:-";
      }
    }
  }
}
