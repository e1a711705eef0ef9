/** What each inbound wants of its kernel interface, and the states of the host and of the
    manager's map that count as having it. */
module KernelSpec {
  import opened Text
  import opened Amnezia
  import opened KernelConfig
  import opened KernelOwnership
  import opened KernelHost

  // ---------------------------------------------------------------------------
  // What one inbound wants
  // ---------------------------------------------------------------------------

  /** A parsed IPv4 prefix and its canonical text. */
  datatype Prefix = Prefix(a: nat, b: nat, c: nat, d: nat, bits: nat) {
    function Show(): string { Dec(a) + "." + Dec(b) + "." + Dec(c) + "." + Dec(d) + "/" + Dec(bits) }

    function Masked(): Prefix {
      if bits >= 32 then this
      else
        var v := ((a * 256 + b) * 256 + c) * 256 + d;
        var m := ClearLow(v, 32 - bits);
        Prefix(m / 0x100_0000, m / 0x1_0000 % 256, m / 256 % 256, m % 256, bits)
    }
  }

  /** v with its n low bits cleared. */
  function ClearLow(v: nat, n: nat): nat {
    if n == 0 then v else 2 * ClearLow(v / 2, n - 1)
  }

  /** What DetectDefaultInterface answers; it falls back to a fixed name. */
  type HostInterface = s: string | s != "" witness "eth0"

  /** `addresses` is what interfaceAddresses parses Instance.Address into, None for its
      errors; `egress` is the configured host interface, `detected` the one used without it. */
  datatype Desired = Desired(
    inst: Instance, addresses: Option<seq<Prefix>>, egress: string, detected: HostInterface, routeThroughXray: bool)

  datatype ForwardRules = ForwardRules(tunnel: string, egress: string)

  datatype Spec = Spec(
    id: int, conf: string, addresses: seq<string>, mtu: int,
    structFP: string, chain: string, forward: ForwardRules)

  predicate InterfaceNameChar(c: char) {
    'A' <= c <= 'Z' || 'a' <= c <= 'z' || '0' <= c <= '9' || c in "_.@:-"
  }

  predicate ValidInterfaceName(name: string) {
    |name| <= 15 && forall i :: 0 <= i < |name| ==> InterfaceNameChar(name[i])
  }

  predicate ListenNeedsPinnedBind(listen: string) {
    TrimSpace(listen) !in {"", "0.0.0.0", "::", "::0"}
  }

  /** The spellings of "every address", with any white space around them. */
  lemma ListensEverywhere(before: string, w: string, after: string)
    requires AllSpace(before) && AllSpace(after) && (w != "" ==> !IsSpace(w[0]) && !IsSpace(w[|w| - 1]))
    ensures !ListenNeedsPinnedBind(before + w + after) <==> w == "" || w == "0.0.0.0" || w == "::" || w == "::0"
  {
    TrimPadded(before, w, after);
  }

  function ShowAll(ps: seq<Prefix>): seq<string> { if ps == [] then [] else [ps[0].Show()] + ShowAll(ps[1..]) }

  function MasqueradeLines(ps: seq<Prefix>, egress: string): string {
    if ps == [] then ""
    else
      "\t\tip saddr " + ps[0].Masked().Show() + " oifname \"" + egress + "\" masquerade\n"
      + MasqueradeLines(ps[1..], egress)
  }

  function NatChain(ps: seq<Prefix>, egress: string): string {
    "\tchain postrouting {\n" + ("\t\ttype nat hook " + "postrouting " + "priority 100; " + "policy accept;") + "\n"
    + MasqueradeLines(ps, egress) + "\t}\n"
  }

  const NO_FORWARD := ForwardRules("", "")

  function Egress(d: Desired): HostInterface { if d.egress == "" then d.detected else d.egress }

  /** The inbounds buildSpec accepts. */
  predicate Specifiable(d: Desired) {
    && d.inst.id > 0 && ValidInterfaceName(OwnedInterfaceName(d.inst.id)) && !ListenNeedsPinnedBind(d.inst.listen)
    && Renderable(d.inst) && d.addresses.Some? && d.addresses.value != []
    && (d.routeThroughXray || ValidInterfaceName(Egress(d)))
  }

  function SpecOf(d: Desired): Result<Spec> {
    if !Specifiable(d) then Err
    else Ok(SpecWith(d.inst.id, Unlines(RenderLines(d.inst)), ShowAll(d.addresses.value),
                     EffectiveMTU(d.inst.mtu, d.inst.obfuscation.s4, DEFAULT_MTU), ChainOf(d), ForwardsOf(d)))
  }

  function SpecWith(id: int, conf: string, addresses: seq<string>, mtu: int, chain: string,
                    forward: ForwardRules): Spec {
    Spec(id, conf, addresses, mtu, StructuralText(conf, addresses, mtu), chain, forward)
  }

  function ChainOf(d: Desired): string
    requires d.addresses.Some?
  {
    if d.routeThroughXray then "" else NatChain(d.addresses.value, Egress(d))
  }

  function ForwardsOf(d: Desired): ForwardRules {
    if d.routeThroughXray then NO_FORWARD else ForwardRules(OwnedInterfaceName(d.inst.id), Egress(d))
  }

  /** buildSpec, in the order of its checks. */
  method BuildSpec(d: Desired) returns (r: Result<Spec>)
    ensures r == SpecOf(d)
    ensures r.Err? <==> !Specifiable(d)
  {
    if d.inst.id <= 0 {
      return Err;
    }
    var name := OwnedInterfaceName(d.inst.id);
    if !ValidInterfaceName(name) || ListenNeedsPinnedBind(d.inst.listen) {
      return Err;
    }
    var rendered := Render(d.inst);
    if rendered.Err? {
      return Err;
    }
    if d.addresses.None? || d.addresses.value == [] {
      return Err;
    }
    var conf, addresses := rendered.value, ShowAll(d.addresses.value);
    var mtu := EffectiveMTU(d.inst.mtu, d.inst.obfuscation.s4, DEFAULT_MTU);
    var chain, forward := "", NO_FORWARD;
    if !d.routeThroughXray {
      var egress: string := d.egress;
      if egress == "" {
        egress := d.detected;
      }
      if !ValidInterfaceName(egress) {
        return Err;
      }
      chain, forward := NatChain(d.addresses.value, egress), ForwardRules(name, egress);
    }
    r := Ok(SpecWith(d.inst.id, conf, addresses, mtu, chain, forward));
  }

  /** What every built spec satisfies. */
  predicate WellFormed(s: Spec) {
    && s.addresses != [] && (forall a :: a in s.addresses ==> AddressText(a))
    && s.structFP == StructuralText(s.conf, s.addresses, s.mtu)
    && ForwardOf(s.forward, s.id)
  }

  lemma {:induction false} ShownPrefixes(ps: seq<Prefix>)
    ensures |ShowAll(ps)| == |ps| && forall a :: a in ShowAll(ps) ==> AddressText(a)
  {
    if ps != [] {
      ShownPrefixes(ps[1..]);
      ShownPrefix(ps[0]);
    }
  }

  lemma ShownPrefix(p: Prefix)
    ensures AddressText(p.Show())
  {
    assert AddressText(Dec(p.a)) && AddressText(Dec(p.b)) && AddressText(Dec(p.c)) && AddressText(Dec(p.d));
    assert AddressText(Dec(p.bits));
    assert AddressText(".") && AddressText("/");
  }

  lemma SpecIsWellFormed(d: Desired)
    requires SpecOf(d).Ok?
    ensures WellFormed(SpecOf(d).value) && SpecOf(d).value.id == d.inst.id
  {
    ShownPrefixes(d.addresses.value);
    WithWellFormed(d.inst.id, Unlines(RenderLines(d.inst)), ShowAll(d.addresses.value),
                   EffectiveMTU(d.inst.mtu, d.inst.obfuscation.s4, DEFAULT_MTU), ChainOf(d), ForwardsOf(d));
  }

  lemma WithWellFormed(id: int, conf: string, addresses: seq<string>, mtu: int, chain: string, forward: ForwardRules)
    requires addresses != [] && (forall a :: a in addresses ==> AddressText(a)) && ForwardOf(forward, id)
    ensures WellFormed(SpecWith(id, conf, addresses, mtu, chain, forward))
  {
  }

  /** A spec whose config the panel will recognise again and can read a key from. */
  predicate Sound(derive: Derive, s: Spec) {
    IsOwnedConfig(s.conf, OwnedInterfaceName(s.id)) && ConfigPublicKey(derive, s.conf).Some?
  }

  /** What an inbound's settings must satisfy for its spec to be sound. */
  predicate SoundDesired(derive: Derive, d: Desired) {
    derive(d.inst.privateKey).Some? && forall p :: p in d.inst.peers ==> NamesAddresses(p)
  }

  lemma SpecConf(d: Desired)
    requires SpecOf(d).Ok?
    ensures Renderable(d.inst) && SpecOf(d).value.conf == Unlines(RenderLines(d.inst))
    ensures SpecOf(d).value.id == d.inst.id
  {
  }

  lemma SoundText(derive: Derive, inst: Instance)
    requires Renderable(inst)
    ensures IsOwnedConfig(Unlines(RenderLines(inst)), OwnedInterfaceName(inst.id)) <==>
      forall p :: p in inst.peers ==> NamesAddresses(p)
    ensures ConfigPublicKey(derive, Unlines(RenderLines(inst))) == derive(inst.privateKey)
  {
    RenderIsOwned(inst);
    RenderNamesKey(inst);
  }

  /** Soundness of the spec can be checked on the inbound before the call. */
  lemma SoundSpec(derive: Derive, d: Desired)
    requires SpecOf(d).Ok?
    ensures Sound(derive, SpecOf(d).value) <==> SoundDesired(derive, d)
  {
    SpecConf(d);
    SoundText(derive, d.inst);
  }

  // ---------------------------------------------------------------------------
  // FORWARD rules of one inbound
  // ---------------------------------------------------------------------------

  function Rules(f: ForwardRules): seq<Rule> {
    if f.egress == "" then []
    else
      var comment := ["-m", "comment", "--comment", "3x-ui:" + f.tunnel, "-j", "ACCEPT"];
      [["-i", f.tunnel, "-o", f.egress] + comment,
       ["-i", f.egress, "-o", f.tunnel, "-m", "conntrack", "--ctstate", "RELATED,ESTABLISHED"] + comment]
  }

  /** Each rule is inserted at the head, so the chain shows them last first. */
  function Stacked(f: ForwardRules): seq<Rule> {
    if f.egress == "" then [] else [Rules(f)[1], Rules(f)[0]]
  }

  lemma RulesAreTagged(f: ForwardRules)
    requires f.egress != ""
    ensures HasCommentTag(Rules(f)[0], "3x-ui:" + f.tunnel) && HasCommentTag(Rules(f)[1], "3x-ui:" + f.tunnel)
  {
    var a, b := Rules(f)[0], Rules(f)[1];
    assert a[6] == "--comment" && a[6 + 1] == "3x-ui:" + f.tunnel;
    assert b[10] == "--comment" && b[10 + 1] == "3x-ui:" + f.tunnel;
  }

  lemma RulesOnlyTagged(f: ForwardRules, tag: string)
    requires f.egress != "" && "3x-ui:" <= tag && tag != "3x-ui:" + f.tunnel
    ensures !HasCommentTag(Rules(f)[0], tag) && !HasCommentTag(Rules(f)[1], tag)
  {
    assert tag[0] == "3x-ui:"[0] == '3';
    var a, b := Rules(f)[0], Rules(f)[1];
    forall i | 0 <= i < |a| - 1 ensures !(a[i] == "--comment" && a[i + 1] == tag) {
      assert a[0] == "-i" && a[2] == "-o" && |"-i"| == 2 && |"-o"| == 2 && |"--comment"| == 9;
      assert a[2][0] == '-' && a[4][0] == '-' && a[5][0] == 'c' && a[6][0] == '-' && a[8][0] == '-' && a[9][0] == 'A';
    }
    forall i | 0 <= i < |b| - 1 ensures !(b[i] == "--comment" && b[i + 1] == tag) {
      assert b[0] == "-i" && b[2] == "-o" && |"-i"| == 2 && |"-o"| == 2 && |"--comment"| == 9;
      assert b[2][0] == '-' && b[4][0] == '-' && b[5][0] == 'c' && b[6][0] == '-' && b[7][0] == 'R'
          && b[8][0] == '-' && b[9][0] == 'c' && b[10][0] == '-' && b[12][0] == '-' && b[13][0] == 'A';
    }
  }

  /** A chain built from this inbound's spec, or from none. */
  predicate ForwardOf(f: ForwardRules, id: int) {
    f == NO_FORWARD || (f.egress != "" && f.tunnel == OwnedInterfaceName(id))
  }

  lemma PairTags(a: Rule, b: Rule, tag: string)
    requires HasCommentTag(a, tag) && HasCommentTag(b, tag)
    ensures Tagged([a, b], tag) == [a, b] && Untagged([a, b], tag) == []
  {
    var none: seq<Rule> := [];
    assert [a, b][1..] == [b] && [b][1..] == none;
    assert Tagged([b], tag) == [b] + Tagged(none, tag) && Tagged([a, b], tag) == [a] + Tagged([b], tag);
    assert Untagged([b], tag) == Untagged(none, tag) && Untagged([a, b], tag) == Untagged([b], tag);
  }

  lemma StackedTags(f: ForwardRules, id: int)
    requires ForwardOf(f, id)
    ensures Tagged(Stacked(f), ForwardComment(id)) == Stacked(f) && Untagged(Stacked(f), ForwardComment(id)) == []
  {
    if f.egress != "" {
      RulesAreTagged(f);
      PairTags(Rules(f)[1], Rules(f)[0], ForwardComment(id));
    }
  }

  lemma CommentInjective(i: int, j: int)
    requires ForwardComment(i) == ForwardComment(j)
    ensures i == j
  {
    assert ForwardComment(i)[6..] == OwnedInterfaceName(i) && ForwardComment(j)[6..] == OwnedInterfaceName(j);
    NameInjective(i, j);
  }

  lemma StackedOnlyTags(f: ForwardRules, id: int, j: int)
    requires ForwardOf(f, id) && j != id
    ensures forall r :: r in Stacked(f) ==> !HasCommentTag(r, ForwardComment(j))
  {
    if f.egress != "" {
      if ForwardComment(j) == ForwardComment(id) {
        CommentInjective(j, id);
      }
      RulesOnlyTagged(f, ForwardComment(j));
    }
  }

  // ---------------------------------------------------------------------------
  // What the manager keeps and promises
  // ---------------------------------------------------------------------------

  datatype Managed = Managed(spec: Spec, trafficGeneration: nat, trafficBaselinePending: bool)

  predicate NatIs(w: World, id: int, chain: string) {
    if chain == "" then id !in w.tables else id in w.tables && w.tables[id] == chain
  }

  predicate ForwardIs(w: World, iptables: bool, s: Spec) {
    iptables ==> Tagged(w.forward, ForwardComment(s.id)) == Stacked(s.forward)
  }

  predicate LinkIs(w: World, s: Spec) {
    && s.id in w.links
    && w.links[s.id].conf == s.conf
    && Host.LinkMatches(w, s.id, s.addresses, s.mtu)
  }

  /** The link a completed build leaves. */
  function NewLink(derive: Derive, s: Spec, made: nat): Link
    requires ConfigPublicKey(derive, s.conf).Some?
  {
    Link(true, made, Key(ConfigPublicKey(derive, s.conf).value), s.conf, s.addresses, s.mtu, true)
  }

  /** The link and its config have been made anew, whatever of NAT and FORWARD. */
  predicate HalfRebuilt(derive: Derive, w0: World, w1: World, s: Spec) {
    && ConfigPublicKey(derive, s.conf).Some? && s.id in w1.links
    && w1.links == w0.links[s.id := NewLink(derive, s, w1.links[s.id].made)]
    && w1.disk == w0.disk[s.id := Regular(s.conf)]
  }

  lemma LinkBuilt(derive: Derive, w0: World, w1: World, s: Spec)
    requires Host.OnlyLink(Written(w0, s.id, s.conf), w1, s.id) && s.id in w1.links
    requires ConfigPublicKey(derive, s.conf).Some? && w1.links[s.id] == NewLink(derive, s, w1.links[s.id].made)
    ensures HalfRebuilt(derive, w0, w1, s)
  {
    forall j | j != s.id ensures (j in w1.links <==> j in w0.links) && (j in w1.links ==> w1.links[j] == w0.links[j]) {
      assert j in w1.links <==> j in w1.links - {s.id};
      assert j in w0.links <==> j in w0.links - {s.id};
    }
  }

  lemma RebuiltLink(derive: Derive, w0: World, w1: World, s: Spec)
    requires HalfRebuilt(derive, w0, w1, s) && s.addresses != []
    ensures LinkIs(w1, s) && w1.links[s.id].up && KeyFits(derive, w1, s)
    ensures s.id in w1.disk && w1.disk[s.id] == Regular(s.conf)
  {
  }

  /** The host is where the spec wants it, except that the link may have been deleted. */
  predicate Accurate(w: World, iptables: bool, s: Spec) {
    && (s.id in w.links ==> LinkIs(w, s))
    && s.id in w.disk && w.disk[s.id] == Regular(s.conf)
    && NatIs(w, s.id, s.chain)
    && ForwardIs(w, iptables, s)
  }

  predicate Converged(w: World, iptables: bool, s: Spec) { s.id in w.links && Accurate(w, iptables, s) }

  /** A live panel link whose key the spec's config names, or that has no key yet. */
  predicate KeyFits(derive: Derive, w: World, s: Spec) {
    s.id in w.links && w.links[s.id].panel ==>
      w.links[s.id].key == Keyless
      || (ConfigPublicKey(derive, s.conf).Some? && w.links[s.id].key == Key(ConfigPublicKey(derive, s.conf).value))
  }

  /** A managed entry still describes its link. It stops doing so when a rebuild for other
      settings fails after it has replaced the file on disk. */
  predicate Fresh(derive: Derive, w: World, managed: Spec) {
    IsOwnedConfig(managed.conf, OwnedInterfaceName(managed.id)) && KeyFits(derive, w, managed)
  }

  predicate FreshAt(derive: Derive, w: World, ifaces: map<int, Managed>, id: int) {
    id in ifaces ==> Fresh(derive, w, ifaces[id].spec)
  }

  predicate AllAccurate(w: World, iptables: bool, ifaces: map<int, Managed>) {
    forall id :: id in ifaces ==> Accurate(w, iptables, ifaces[id].spec)
  }

  /** A link whose key the panel cannot prove, found where the panel manages nothing. */
  predicate Foreign(derive: Derive, w: World, ifaces: map<int, Managed>, id: int) {
    id in w.links && id !in ifaces && !Recoverable(derive, w, id)
  }

  /** What an Ensure asks of the host: no config the panel cannot recognise, and no live link
      of somebody else's. */
  predicate Accepts(derive: Derive, w: World, ifaces: map<int, Managed>, id: int) {
    !ReadOwned(w, id).Refused? && !Foreign(derive, w, ifaces, id)
  }

  /** The live link is kept: reconfigured when managed, adopted when it matches. */
  predicate KeptLink(w: World, ifaces: map<int, Managed>, s: Spec) {
    && s.id in w.links
    && if s.id in ifaces then ifaces[s.id].spec.structFP == s.structFP
       else var owned := ReadOwned(w, s.id);
            owned.Found? && InterfaceSection(owned.text) == InterfaceSection(s.conf)
            && Host.LinkMatches(w, s.id, s.addresses, s.mtu)
  }

  /** The call asks for just what the managed entry says. Nothing is done then, whatever state
      a failed rebuild has left the host in. */
  predicate Repeats(w: World, ifaces: map<int, Managed>, s: Spec) {
    s.id in w.links && s.id in ifaces && ifaces[s.id].spec == s
  }

  lemma SameKeyFits(derive: Derive, w: World, a: Spec, b: Spec)
    requires a.id == b.id && WellFormed(a) && WellFormed(b) && a.structFP == b.structFP
    requires IsOwnedConfig(a.conf, OwnedInterfaceName(a.id)) && IsOwnedConfig(b.conf, OwnedInterfaceName(a.id))
    ensures KeyFits(derive, w, a) <==> KeyFits(derive, w, b)
  {
    StructuralTextInjective(a.conf, a.addresses, a.mtu, b.conf, b.addresses, b.mtu);
    SameSectionSameKey(a.conf, b.conf, OwnedInterfaceName(a.id));
  }

  lemma AdoptedKeyFits(derive: Derive, w: World, s: Spec)
    requires s.id in w.links && Recoverable(derive, w, s.id)
    requires InterfaceSection(ReadOwned(w, s.id).text) == InterfaceSection(s.conf)
    ensures Sound(derive, s) ==> KeyFits(derive, w, s)
  {
    if Sound(derive, s) {
      SameSectionSameKey(ReadOwned(w, s.id).text, s.conf, OwnedInterfaceName(s.id));
    }
  }

  lemma NewFresh(derive: Derive, ok: bool, w0: World, m0: map<int, Managed>, w1: World, m1: map<int, Managed>, s: Spec)
    requires Installed(ok, m0, m1, s) && (s.id in m0 ==> !KeptLink(w0, m0, s))
    ensures Sound(derive, s) && (ok ==> KeyFits(derive, w1, s)) ==> FreshKept(derive, ok, w0, m0, w1, m1, s)
  {
  }

  /** A successful Ensure from an accurate state ends in one. */
  lemma AccurateAfter(iptables: bool, w0: World, m0: map<int, Managed>, w1: World, m1: map<int, Managed>, s: Spec)
    requires WellFormed(s) && OnlyAt(w0, w1, s.id) && Installed(true, m0, m1, s) && Reached(w0, m0, w1, iptables, s)
    requires forall j :: j in m0 ==> m0[j].spec.id == j && WellFormed(m0[j].spec)
    requires AllAccurate(w0, iptables, m0)
    ensures AllAccurate(w1, iptables, m1)
  {
    AccurateConverges(w0, m0, iptables, s);
    assert Accurate(w1, iptables, s);
    OthersStayAccurate(w0, w1, iptables, m0, m1, s.id, s.forward);
  }

  lemma InPlaceFresh(derive: Derive, w0: World, w1: World, m0: map<int, Managed>, m1: map<int, Managed>, s: Spec)
    requires s.id in m0 && m0[s.id].spec.id == s.id && m1 in {m0, m0[s.id := m0[s.id].(spec := s)]}
    requires WellFormed(s) && WellFormed(m0[s.id].spec) && m0[s.id].spec.structFP == s.structFP && Sound(derive, s)
    requires Fresh(derive, w0, m0[s.id].spec)
    requires KeyFits(derive, w0, s) ==> KeyFits(derive, w1, s)
    ensures Fresh(derive, w1, m1[s.id].spec)
  {
    var prev := m0[s.id].spec;
    SameKeyFits(derive, w0, prev, s);
    SameKeyFits(derive, w1, prev, s);
  }

  /** A rule of one interface's chain is never taken for another interface's. */
  lemma TagsKeptApart(chain0: seq<Rule>, chain1: seq<Rule>, f: ForwardRules, id: int, g: ForwardRules, j: int)
    requires j != id && ForwardOf(f, id) && ForwardOf(g, j)
    requires Untagged(chain1, ForwardComment(id)) == Untagged(chain0, ForwardComment(id))
    requires Tagged(chain1, ForwardComment(id)) == Stacked(f)
    requires Tagged(chain0, ForwardComment(j)) == Stacked(g)
    ensures Tagged(chain1, ForwardComment(j)) == Stacked(g)
  {
    StackedOnlyTags(g, j, id);
    OtherTagKept(chain0, ForwardComment(id), ForwardComment(j));
    forall r | r in Tagged(chain1, ForwardComment(j)) ensures !HasCommentTag(r, ForwardComment(id)) {
      TaggedIn(chain1, ForwardComment(j), r);
      if HasCommentTag(r, ForwardComment(id)) {
        InTagged(chain1, ForwardComment(id), r);
        StackedOnlyTags(f, id, j);
      }
    }
    OtherTagKept(chain1, ForwardComment(id), ForwardComment(j));
  }

  /** Work on one interface leaves every other managed interface as its spec wants it. */
  lemma OthersStayAccurate(w0: World, w1: World, iptables: bool, m0: map<int, Managed>, m1: map<int, Managed>, id: int,
                           f: ForwardRules)
    requires OnlyAt(w0, w1, id) && m1 - {id} == m0 - {id} && ForwardOf(f, id)
    requires forall j :: j in m0 ==> m0[j].spec.id == j && WellFormed(m0[j].spec)
    requires iptables ==> Tagged(w1.forward, ForwardComment(id)) == Stacked(f)
    requires AllAccurate(w0, iptables, m0)
    requires id in m1 ==> Accurate(w1, iptables, m1[id].spec)
    ensures AllAccurate(w1, iptables, m1)
  {
    forall j | j in m1 && j != id ensures Accurate(w1, iptables, m1[j].spec) {
      assert j in m1 - {id} && (m1 - {id})[j] == m1[j];
      assert Accurate(w0, iptables, m0[j].spec);
      OnlyAtOthers(w0, w1, id, j);
      if iptables {
        TagsKeptApart(w0.forward, w1.forward, f, id, m0[j].spec.forward, j);
      }
    }
  }

  /** Inserting a rule of the inbound leaves all others' rules as they are. */
  lemma StackedOn(f: ForwardRules, id: int, k: nat, chain: seq<Rule>)
    requires f.egress != "" && ForwardOf(f, id) && k < 2
    ensures OthersKept(chain, [Rules(f)[k]] + chain, id)
  {
    RulesAreTagged(f);
    HeadTags(Rules(f)[k], chain, ForwardComment(id));
    forall j | j != id ensures NoNew(chain, [Rules(f)[k]] + chain, j) {
      StackedOnlyTags(f, id, j);
      assert Rules(f)[0] in Stacked(f) && Rules(f)[1] in Stacked(f);
    }
  }

  lemma TwoOnTop(a: Rule, b: Rule, chain: seq<Rule>)
    ensures [b] + ([a] + chain) == [b, a] + chain
  {
  }

  lemma SyncedForward(f: ForwardRules, id: int, before: seq<Rule>)
    requires ForwardOf(f, id)
    ensures Tagged(Stacked(f) + Untagged(before, ForwardComment(id)), ForwardComment(id)) == Stacked(f)
  {
    TaggedAppend(Stacked(f), Untagged(before, ForwardComment(id)), ForwardComment(id));
    StackedTags(f, id);
    UntaggedHasNone(before, ForwardComment(id));
  }

  /** What an Ensure does to the manager's map. */
  predicate Installed(ok: bool, m0: map<int, Managed>, m1: map<int, Managed>, s: Spec) {
    if ok then s.id in m1 && m1[s.id].spec == s && m1 == m0[s.id := m1[s.id]] else m1 == m0
  }

  /** An in-place sync rewrites only what the managed entry says has changed, so the rest has
      to be right already. */
  predicate SyncReaches(w0: World, iptables: bool, prev: Spec, s: Spec) {
    && Host.LinkMatches(w0, s.id, s.addresses, s.mtu)
    && (prev.conf == s.conf ==> w0.links[s.id].conf == s.conf && s.id in w0.disk && w0.disk[s.id] == Regular(s.conf))
    && (prev.chain == s.chain ==> NatIs(w0, s.id, s.chain))
    && (prev.forward == s.forward ==> ForwardIs(w0, iptables, s))
  }

  /** What makes a successful Ensure converge: always without a managed entry; with one, what
      the branch takes on trust from the entry. */
  predicate WillConverge(w0: World, m0: map<int, Managed>, iptables: bool, s: Spec) {
    s.id in m0 ==>
      var prev := m0[s.id].spec;
      if s.id in w0.links && prev.structFP == s.structFP then SyncReaches(w0, iptables, prev, s)
      else prev.forward == s.forward ==> ForwardIs(w0, iptables, s)
  }

  lemma AccurateConverges(w0: World, m0: map<int, Managed>, iptables: bool, s: Spec)
    requires WellFormed(s)
    requires s.id in m0 ==>
      m0[s.id].spec.id == s.id && WellFormed(m0[s.id].spec) && Accurate(w0, iptables, m0[s.id].spec)
    ensures WillConverge(w0, m0, iptables, s)
  {
    if s.id in m0 && m0[s.id].spec.structFP == s.structFP {
      var prev := m0[s.id].spec;
      StructuralTextInjective(prev.conf, prev.addresses, prev.mtu, s.conf, s.addresses, s.mtu);
    }
  }

  /** The link is still there and was not made anew. */
  predicate SameLink(w0: World, w1: World, id: int)
    requires id in w0.links
  {
    id in w1.links && w1.links[id].made == w0.links[id].made
  }

  /** A managed link whose fingerprint is unchanged survives, whatever fails. */
  predicate SessionsKept(w0: World, m0: map<int, Managed>, w1: World, s: Spec) {
    s.id in m0 && KeptLink(w0, m0, s) ==> SameLink(w0, w1, s.id)
  }

  /** Where a successful Ensure leaves the host. A kept link is the one there was, and as up or
      down as it was. */
  predicate Reached(w0: World, m0: map<int, Managed>, w1: World, iptables: bool, s: Spec) {
    && s.id in w1.links
    && (Converged(w1, iptables, s) <==> WillConverge(w0, m0, iptables, s))
    && (w1.links[s.id].up <==> (KeptLink(w0, m0, s) ==> w0.links[s.id].up))
    && (KeptLink(w0, m0, s) ==> SameLink(w0, w1, s.id))
  }

  lemma SyncedReached(w0: World, m0: map<int, Managed>, w1: World, iptables: bool, s: Spec)
    requires s.id in m0 && s.id in w0.links && m0[s.id].spec.structFP == s.structFP && SameLink(w0, w1, s.id)
    requires w1.links[s.id].up == w0.links[s.id].up
    ensures Reached(w0, m0, w1, iptables, s) <==>
      (Converged(w1, iptables, s) <==> SyncReaches(w0, iptables, m0[s.id].spec, s))
  {
  }

  /** The calls that keep a managed entry fresh: all but a rebuild of its link that fails after it
      has touched the host. */
  predicate KeepsFresh(ok: bool, w0: World, m0: map<int, Managed>, w1: World, s: Spec) {
    ok || s.id !in m0 || KeptLink(w0, m0, s) || w1 == w0
  }

  predicate FreshKept(derive: Derive, ok: bool, w0: World, m0: map<int, Managed>, w1: World, m1: map<int, Managed>,
                      s: Spec) {
    FreshAt(derive, w0, m0, s.id) && KeepsFresh(ok, w0, m0, w1, s) ==> FreshAt(derive, w1, m1, s.id)
  }

  /** The one family of calls that loses crash safety: an in-place sync of changed peers onto
      a link whose key is not the key the managed entry was made for. */
  predicate StaleTrap(derive: Derive, w: World, m: map<int, Managed>, s: Spec) {
    && s.id in m && s.id in w.links
    && m[s.id].spec.structFP == s.structFP && m[s.id].spec.conf != s.conf && !KeyFits(derive, w, s)
  }

  /** While managed entries are fresh no call falls into the trap. */
  lemma FreshCannotTrap(derive: Derive, w: World, ifaces: map<int, Managed>, s: Spec)
    requires WellFormed(s) && Sound(derive, s)
    requires s.id in ifaces ==>
      var prev := ifaces[s.id].spec; prev.id == s.id && WellFormed(prev) && Fresh(derive, w, prev)
    ensures !StaleTrap(derive, w, ifaces, s)
  {
    if s.id in ifaces && ifaces[s.id].spec.structFP == s.structFP {
      SameKeyFits(derive, w, ifaces[s.id].spec, s);
    }
  }

  // ---------------------------------------------------------------------------
  // Removing interfaces, and whole sets of inbounds
  // ---------------------------------------------------------------------------

  /** Nothing of the panel's is left at the id: no owned config, or one that does not prove
      the live link, which therefore is somebody else's. */
  predicate Gone(derive: Derive, w: World, id: int) {
    ReadOwned(w, id).Found? ==> id in w.links && !Recoverable(derive, w, id)
  }

  /** What a teardown asks of the host. */
  predicate Removable(derive: Derive, w: World, ifaces: map<int, Managed>, id: int) {
    var owned := ReadOwned(w, id);
    && !owned.Refused?
    && (id in w.links ==> if owned.Found? then Recoverable(derive, w, id) else id in ifaces)
  }

  /** What a completed removal made of the id: a link and a config the panel can prove go with
      all that served them; anything else is left alone and stays managed if it was. An id with
      no link and no config is only forgotten. */
  predicate Removed(derive: Derive, iptables: bool, a: Standing, b: Standing, id: int) {
    && Gone(derive, b.w, id)
    && if !Removable(derive, a.w, a.ifaces, id) then SameAt(a.w, b.w, id) && (id in b.ifaces <==> id in a.ifaces)
       else
         && id !in b.ifaces && id !in b.w.links && id !in b.w.disk
         && (id in a.ifaces || id in a.w.disk ==> NothingServes(b.w, iptables, id))
  }

  /** No NAT table and no FORWARD rule of the interface is left. */
  predicate NothingServes(w: World, iptables: bool, id: int) {
    id !in w.tables && (iptables ==> Tagged(w.forward, ForwardComment(id)) == [])
  }

  /** What others' work leaves of a removal. */
  lemma RemovedStays(derive: Derive, iptables: bool, a: Standing, b: Standing, c: Standing, id: int)
    requires Removed(derive, iptables, a, b, id) && SameAt(b.w, c.w, id) && (id in c.ifaces <==> id in b.ifaces)
    ensures Removed(derive, iptables, a, c, id)
  {
    if NothingServes(b.w, iptables, id) && iptables {
      NoneTaggedStays(b.w.forward, c.w.forward, id);
    }
  }

  lemma RemovedSince(derive: Derive, iptables: bool, a: Standing, b: Standing, c: Standing, id: int)
    requires SameAt(a.w, b.w, id) && (id in b.ifaces <==> id in a.ifaces) && Removed(derive, iptables, b, c, id)
    ensures Removed(derive, iptables, a, c, id)
  {
  }

  predicate AllRemoved(derive: Derive, iptables: bool, a: Standing, b: Standing, ids: set<int>) {
    forall id :: id in ids ==> Removed(derive, iptables, a, b, id)
  }

  /** A link the panel made is never left behind as somebody else's. */
  lemma GoneMeansNoPanelLink(derive: Derive, w: World, id: int)
    requires CrashSafe(derive, w) && Gone(derive, w, id)
    ensures id in w.links ==> !w.links[id].panel
    ensures id !in Host.OwnedIDs(w) || id in w.links
  {
    assert id in w.links ==> CrashSafeAt(derive, w, id);
  }

  /** What a teardown without failures leaves of a run. */
  lemma TrackRemoved(derive: Derive, iptables: bool, w0: World, w1: World, m0: map<int, Managed>,
                     m1: map<int, Managed>, id: int)
    requires OnlyAt(w0, w1, id) && m1 in {m0, m0 - {id}}
    requires forall j :: j in m0 ==> m0[j].spec.id == j && WellFormed(m0[j].spec)
    requires w1 != w0 ==> id !in m1 && (iptables ==> Tagged(w1.forward, ForwardComment(id)) == [])
    requires AllAccurate(w0, iptables, m0)
    ensures AllAccurate(w1, iptables, m1)
  {
    if w1 != w0 {
      OthersStayAccurate(w0, w1, iptables, m0, m1, id, NO_FORWARD);
    }
  }

  function Ids(desired: seq<Desired>): set<int> { set d | d in desired :: d.inst.id }

  function UnsoundOne(derive: Derive, d: Desired): set<int> {
    if SoundDesired(derive, d) then {} else {d.inst.id}
  }

  /** The ids of the unsound inbounds. */
  function Unsound(derive: Derive, desired: seq<Desired>): set<int> {
    set d | d in desired && !SoundDesired(derive, d) :: d.inst.id
  }

  predicate Distinct(desired: seq<Desired>) {
    forall i, j :: 0 <= i < j < |desired| ==> desired[i].inst.id != desired[j].inst.id
  }

  // ---------------------------------------------------------------------------
  // Steps of a run
  // ---------------------------------------------------------------------------

  /** Where a run stands between two operations. */
  datatype Standing = Standing(
    w: World, ifaces: map<int, Managed>, alive: bool, clean: bool, staleSyncs: set<int>, failedRebuilds: set<int>,
    forwarding: bool)

  /** The panel's link at the id is crash safe now, and no managed entry can mislead the next call. */
  predicate SteadyAt(derive: Derive, a: Standing, id: int) {
    CrashSafeAt(derive, a.w, id) && id !in a.staleSyncs && (a.alive ==> FreshAt(derive, a.w, a.ifaces, id))
  }

  /** An id stays steady unless its inbound is unsound or its own rebuild failed. */
  ghost predicate SteadyBut(derive: Derive, a: Standing, b: Standing, bad: set<int>) {
    forall id :: id !in bad && id !in b.failedRebuilds && SteadyAt(derive, a, id) ==> SteadyAt(derive, b, id)
  }

  predicate AccurateNow(iptables: bool, a: Standing) { a.alive ==> AllAccurate(a.w, iptables, a.ifaces) }

  /** Where a live link is not provably the panel's and not managed, nothing changes. */
  ghost predicate ForeignKept(derive: Derive, a: Standing, b: Standing) {
    forall id :: Foreign(derive, a.w, a.ifaces, id) ==> SameAt(a.w, b.w, id) && id !in b.ifaces
  }

  /** The host forwards if a managed interface has an egress. */
  predicate EgressOn(a: Standing) {
    forall id :: id in a.ifaces && a.ifaces[id].spec.forward.egress != "" ==> a.forwarding
  }

  predicate ForwardingKept(a: Standing, b: Standing) {
    (a.forwarding ==> b.forwarding) && (EgressOn(a) ==> EgressOn(b))
  }

  lemma EgressInstalled(ok: bool, a: Standing, b: Standing, s: Spec)
    requires Installed(ok, a.ifaces, b.ifaces, s) && (a.forwarding ==> b.forwarding)
    requires ok && s.forward.egress != "" ==> b.forwarding
    ensures ForwardingKept(a, b)
  {
    InstalledOnly(ok, a, b, s);
    forall id | EgressOn(a) && id in b.ifaces && b.ifaces[id].spec.forward.egress != "" ensures b.forwarding {
      assert id != s.id ==> id in b.ifaces - {s.id} && (a.ifaces - {s.id})[id] == b.ifaces[id];
    }
  }

  /** What an operation keeps; `bad` are the ids of the unsound inbounds it was given. */
  ghost predicate KeptAt(derive: Derive, iptables: bool, bad: set<int>, a: Standing, b: Standing) {
    && (b.alive ==> a.alive) && (b.clean ==> a.clean) && (!a.alive ==> b.w == a.w)
    && a.staleSyncs <= b.staleSyncs && a.failedRebuilds <= b.failedRebuilds
    && SafeBut(derive, a.w, b.w, bad + b.staleSyncs) && SteadyBut(derive, a, b, bad)
    && (b.clean && AccurateNow(iptables, a) ==> AccurateNow(iptables, b))
    && ForeignKept(derive, a, b) && Unowned(b.w.forward) == Unowned(a.w.forward) && ForwardingKept(a, b)
  }

  lemma KeptSame(derive: Derive, iptables: bool, bad: set<int>, a: Standing, id: int)
    ensures KeptAt(derive, iptables, bad, a, a) && OnlyAt(a.w, a.w, id)
  {
  }

  lemma SameAtTwice(w0: World, w1: World, w2: World, id: int)
    requires SameAt(w0, w1, id) && SameAt(w1, w2, id)
    ensures SameAt(w0, w2, id)
  {
  }

  lemma ForeignKeptTwice(derive: Derive, a: Standing, b: Standing, c: Standing)
    requires ForeignKept(derive, a, b) && ForeignKept(derive, b, c)
    ensures ForeignKept(derive, a, c)
  {
    forall id | Foreign(derive, a.w, a.ifaces, id) ensures SameAt(a.w, c.w, id) && id !in c.ifaces {
      assert Foreign(derive, b.w, b.ifaces, id);
      SameAtTwice(a.w, b.w, c.w, id);
    }
  }

  lemma ForeignHere(derive: Derive, a: Standing, b: Standing, id: int)
    requires OnlyAt(a.w, b.w, id) && b.ifaces - {id} == a.ifaces - {id}
    requires Foreign(derive, a.w, a.ifaces, id) ==> b.w == a.w && b.ifaces == a.ifaces
    ensures ForeignKept(derive, a, b)
  {
    forall j | Foreign(derive, a.w, a.ifaces, j) ensures SameAt(a.w, b.w, j) && j !in b.ifaces {
      if j != id {
        OnlyAtOthers(a.w, b.w, id, j);
        assert j in b.ifaces <==> j in b.ifaces - {id};
        assert j in a.ifaces <==> j in a.ifaces - {id};
      }
    }
  }

  lemma SteadyElsewhere(derive: Derive, a: Standing, b: Standing, id: int, j: int)
    requires OnlyAt(a.w, b.w, id) && b.ifaces - {id} == a.ifaces - {id} && j != id && (b.alive ==> a.alive)
    requires (j in a.ifaces ==> a.ifaces[j].spec.id == j) && (j in b.staleSyncs ==> j in a.staleSyncs)
    requires SteadyAt(derive, a, j)
    ensures SteadyAt(derive, b, j)
  {
    OnlyAtOthers(a.w, b.w, id, j);
    assert j in b.ifaces <==> j in b.ifaces - {id};
    assert j in a.ifaces <==> j in a.ifaces - {id};
    assert j in b.ifaces ==> (b.ifaces - {id})[j] == b.ifaces[j] && (a.ifaces - {id})[j] == a.ifaces[j];
  }

  lemma SteadyHere(derive: Derive, a: Standing, b: Standing, id: int, bad: set<int>)
    requires OnlyAt(a.w, b.w, id) && b.ifaces - {id} == a.ifaces - {id} && (b.alive ==> a.alive)
    requires forall j :: j in a.ifaces ==> a.ifaces[j].spec.id == j
    requires b.staleSyncs <= a.staleSyncs + {id}
    requires id !in bad && id !in b.failedRebuilds && SteadyAt(derive, a, id) ==> SteadyAt(derive, b, id)
    ensures SteadyBut(derive, a, b, bad)
  {
    forall j | j !in bad && j !in b.failedRebuilds && SteadyAt(derive, a, j) ensures SteadyAt(derive, b, j) {
      if j != id {
        SteadyElsewhere(derive, a, b, id, j);
      }
    }
  }

  lemma SpecFacts(derive: Derive, d: Desired, s: Spec)
    requires SpecOf(d) == Ok(s)
    ensures WellFormed(s) && s.id == d.inst.id
    ensures UnsoundOne(derive, d) == if Sound(derive, s) then {} else {s.id}
  {
    SpecIsWellFormed(d);
    SoundSpec(derive, d);
  }

  lemma KeptTwice(derive: Derive, iptables: bool, bad: set<int>, step: set<int>,
                  a: Standing, b: Standing, c: Standing)
    requires KeptAt(derive, iptables, bad, a, b) && KeptAt(derive, iptables, step, b, c) && step <= bad
    ensures KeptAt(derive, iptables, bad, a, c)
  {
    ForeignKeptTwice(derive, a, b, c);
  }

  predicate Untouched(a: Standing, b: Standing, id: int) {
    SameAt(a.w, b.w, id) && (id in b.ifaces <==> id in a.ifaces) && (id in b.ifaces ==> b.ifaces[id] == a.ifaces[id])
  }

  lemma UntouchedTwice(a: Standing, b: Standing, c: Standing, id: int)
    requires Untouched(a, b, id) && Untouched(b, c, id)
    ensures Untouched(a, c, id)
  {
    SameAtTwice(a.w, b.w, c.w, id);
  }

  lemma UntouchedElsewhere(a: Standing, b: Standing, id: int, j: int)
    requires OnlyAt(a.w, b.w, id) && b.ifaces - {id} == a.ifaces - {id} && j != id
    ensures Untouched(a, b, j)
  {
    OnlyAtOthers(a.w, b.w, id, j);
    assert j in b.ifaces <==> j in b.ifaces - {id};
    assert j in a.ifaces <==> j in a.ifaces - {id};
    assert j in b.ifaces ==> (b.ifaces - {id})[j] == b.ifaces[j] && (a.ifaces - {id})[j] == a.ifaces[j];
  }

  /** The host's links, configs and tables and the manager's map changed only at these ids. */
  ghost predicate OnlyIn(a: Standing, b: Standing, ids: set<int>) { forall j :: j !in ids ==> Untouched(a, b, j) }

  predicate SameFor(a: Standing, b: Standing, ids: set<int>) { forall j :: j in ids ==> Untouched(a, b, j) }

  lemma OnlyInTwice(a: Standing, b: Standing, c: Standing, ids: set<int>, id: int)
    requires OnlyIn(a, b, ids) && OnlyAt(b.w, c.w, id) && c.ifaces - {id} == b.ifaces - {id}
    ensures OnlyIn(a, c, ids + {id})
  {
    forall j | j !in ids + {id} ensures Untouched(a, c, j) {
      UntouchedElsewhere(b, c, id, j);
      UntouchedTwice(a, b, c, j);
    }
  }

  lemma OnlyInBoth(a: Standing, b: Standing, c: Standing, first: set<int>, second: set<int>)
    requires OnlyIn(a, b, first) && OnlyIn(b, c, second)
    ensures OnlyIn(a, c, first + second)
  {
    forall j | j !in first + second ensures Untouched(a, c, j) {
      UntouchedTwice(a, b, c, j);
    }
  }

  lemma AllRemovedTwice(derive: Derive, iptables: bool, a: Standing, b: Standing, c: Standing,
                        ids: set<int>, id: int)
    requires OnlyIn(a, b, ids) && AllRemoved(derive, iptables, a, b, ids) && id !in ids
    requires OnlyAt(b.w, c.w, id) && c.ifaces - {id} == b.ifaces - {id} && Removed(derive, iptables, b, c, id)
    ensures AllRemoved(derive, iptables, a, c, ids + {id})
  {
    RemovedSince(derive, iptables, a, b, c, id);
    forall j | j in ids ensures Removed(derive, iptables, a, c, j) {
      UntouchedElsewhere(b, c, id, j);
      RemovedStays(derive, iptables, a, b, c, j);
    }
  }

  /** The ids a reconcile clears away. */
  function Unwanted(a: Standing, want: set<int>): set<int> { a.ifaces.Keys + Host.OwnedIDs(a.w) - want }

  ghost predicate NoneUnwanted(derive: Derive, w: World, want: set<int>) {
    forall id :: id > 0 && id !in want ==> Gone(derive, w, id)
  }

  /** The unwanted ids the panel knows of were removed, and it can prove no other. */
  ghost predicate Unburdened(derive: Derive, iptables: bool, a: Standing, b: Standing, want: set<int>) {
    AllRemoved(derive, iptables, a, b, Unwanted(a, want)) && NoneUnwanted(derive, b.w, want)
  }

  /** A sweep over a set of ids, part of it done. */
  ghost predicate Swept(derive: Derive, iptables: bool, a: Standing, b: Standing, done: set<int>) {
    && KeptAt(derive, iptables, {}, a, b) && OnlyIn(a, b, done) && b.ifaces.Keys <= a.ifaces.Keys
    && (b.alive && b.clean ==> AllRemoved(derive, iptables, a, b, done))
  }

  lemma SweptOneMore(derive: Derive, iptables: bool, a: Standing, b: Standing, c: Standing,
                     done: set<int>, id: int)
    requires Swept(derive, iptables, a, b, done) && id !in done && KeptAt(derive, iptables, {}, b, c)
    requires OnlyAt(b.w, c.w, id) && c.ifaces in {b.ifaces, b.ifaces - {id}}
    requires c.alive && c.clean ==> Removed(derive, iptables, b, c, id)
    ensures Swept(derive, iptables, a, c, done + {id})
  {
    KeptTwice(derive, iptables, {}, {}, a, b, c);
    OnlyInTwice(a, b, c, done, id);
    if c.alive && c.clean {
      AllRemovedTwice(derive, iptables, a, b, c, done, id);
    }
  }

  /** The undesired go in two rounds: the managed ones, then those only a config tells of. */
  lemma TwoRounds(derive: Derive, iptables: bool, a: Standing, b: Standing, c: Standing, want: set<int>)
    requires var first := a.ifaces.Keys - want;
      var second := Host.OwnedIDs(b.w) - want - first;
      && OnlyIn(a, b, first) && AllRemoved(derive, iptables, a, b, first)
      && OnlyIn(b, c, second) && AllRemoved(derive, iptables, b, c, second)
    ensures Unburdened(derive, iptables, a, c, want)
  {
    var first := a.ifaces.Keys - want;
    var second := Host.OwnedIDs(b.w) - want - first;
    forall id | id in Unwanted(a, want) ensures Removed(derive, iptables, a, c, id) {
      if id in first {
        assert Untouched(b, c, id);
        RemovedStays(derive, iptables, a, b, c, id);
      } else {
        assert Untouched(a, b, id);
        RemovedSince(derive, iptables, a, b, c, id);
      }
    }
    forall id | id > 0 && id !in want ensures Gone(derive, c.w, id) {
      if id in second {
        assert Removed(derive, iptables, b, c, id);
      } else if id in first {
        assert Removed(derive, iptables, a, b, id) && Untouched(b, c, id);
      } else {
        assert Untouched(b, c, id);
      }
    }
  }

  lemma WantedUntouched(a: Standing, b: Standing, c: Standing, first: set<int>, second: set<int>, want: set<int>)
    requires OnlyIn(a, b, first) && OnlyIn(b, c, second) && first !! want && second !! want
    ensures SameFor(a, c, want)
  {
    forall j | j in want ensures Untouched(a, c, j) {
      UntouchedTwice(a, b, c, j);
    }
  }

  /** Listing the configs changes nothing on the host. */
  lemma SinceListed(derive: Derive, iptables: bool, a: Standing, b: Standing, c: Standing, ids: set<int>)
    requires b.w == a.w && b.ifaces == a.ifaces
    ensures AllRemoved(derive, iptables, b, c, ids) ==> AllRemoved(derive, iptables, a, c, ids)
  {
  }

  /** Whatever is removed as undesired was managed or had a config of the panel's. */
  lemma OnlyUnwanted(a: Standing, b: Standing, c: Standing, first: set<int>, second: set<int>, want: set<int>)
    requires OnlyIn(a, b, first) && OnlyIn(b, c, second) && first == a.ifaces.Keys - want
    requires second <= Host.OwnedIDs(b.w) - want - first
    ensures OnlyIn(a, c, Unwanted(a, want)) && second <= Unwanted(a, want)
  {
    OnlyInBoth(a, b, c, first, second);
    forall id | id in second ensures id in Unwanted(a, want) {
      assert Untouched(a, b, id);
    }
  }

  lemma StaysUnburdened(derive: Derive, iptables: bool, a: Standing, b: Standing, c: Standing, want: set<int>)
    requires Unburdened(derive, iptables, a, b, want) && OnlyIn(b, c, want)
    ensures Unburdened(derive, iptables, a, c, want)
  {
    forall id | id in Unwanted(a, want) ensures Removed(derive, iptables, a, c, id) {
      assert id !in want && Untouched(b, c, id);
      RemovedStays(derive, iptables, a, b, c, id);
    }
    forall id | id > 0 && id !in want ensures Gone(derive, c.w, id) {
      assert Untouched(b, c, id) && Gone(derive, b.w, id);
    }
  }

  /** The wanted inbound has its spec installed and its link up to date on the host. */
  predicate InstalledFrom(derive: Derive, a: Standing, b: Standing, d: Desired) {
    SpecOf(d).Ok? && Accepts(derive, a.w, a.ifaces, d.inst.id) ==>
      && d.inst.id in b.w.links && d.inst.id in b.ifaces && b.ifaces[d.inst.id].spec == SpecOf(d).value
      && (SpecOf(d).value.forward.egress != "" ==> b.forwarding)
  }

  predicate AllInstalled(derive: Derive, a: Standing, b: Standing, ds: seq<Desired>) {
    forall d :: d in ds ==> InstalledFrom(derive, a, b, d)
  }

  lemma InstalledToo(derive: Derive, a: Standing, b: Standing, c: Standing, ds: seq<Desired>, d: Desired)
    requires AllInstalled(derive, a, b, ds) && OnlyIn(a, b, Ids(ds)) && d.inst.id !in Ids(ds)
    requires OnlyAt(b.w, c.w, d.inst.id) && c.ifaces - {d.inst.id} == b.ifaces - {d.inst.id}
    requires InstalledFrom(derive, b, c, d) && (b.forwarding ==> c.forwarding)
    ensures AllInstalled(derive, a, c, ds + [d])
  {
    assert Untouched(a, b, d.inst.id);
    forall e | e in ds ensures InstalledFrom(derive, a, c, e) {
      assert e.inst.id in Ids(ds);
      StaysInstalled(derive, a, b, c, e, d.inst.id);
    }
    SameAcceptsAt(derive, a, b, d.inst.id);
  }

  lemma StaysInstalled(derive: Derive, a: Standing, b: Standing, c: Standing, e: Desired, id: int)
    requires InstalledFrom(derive, a, b, e) && e.inst.id != id
    requires OnlyAt(b.w, c.w, id) && c.ifaces - {id} == b.ifaces - {id} && (b.forwarding ==> c.forwarding)
    ensures InstalledFrom(derive, a, c, e)
  {
    OnlyAtOthers(b.w, c.w, id, e.inst.id);
    if e.inst.id in b.ifaces {
      assert e.inst.id in b.ifaces - {id} && (c.ifaces - {id})[e.inst.id] == b.ifaces[e.inst.id];
    }
  }

  lemma SameAcceptsAt(derive: Derive, a: Standing, b: Standing, id: int)
    requires SameAt(a.w, b.w, id) && (id in b.ifaces <==> id in a.ifaces)
    ensures Accepts(derive, a.w, a.ifaces, id) == Accepts(derive, b.w, b.ifaces, id)
  {
  }

  /** A link that its settings let live was neither deleted nor made anew. */
  predicate LinkKept(a: Standing, b: Standing, d: Desired) {
    SpecOf(d).Ok? ==> SessionsKept(a.w, a.ifaces, b.w, SpecOf(d).value)
  }

  predicate LinksKept(a: Standing, b: Standing, ds: seq<Desired>) { forall d :: d in ds ==> LinkKept(a, b, d) }

  /** The inbound asks for just what its managed entry says. */
  predicate Repeated(a: Standing, d: Desired) { SpecOf(d).Ok? && Repeats(a.w, a.ifaces, SpecOf(d).value) }

  predicate AllRepeated(a: Standing, ds: seq<Desired>) { forall d :: d in ds ==> Repeated(a, d) }

  predicate Unmoved(a: Standing, b: Standing) { b.w == a.w && b.ifaces == a.ifaces }

  /** One wanted inbound was ensured. */
  ghost predicate BroughtOne(derive: Derive, iptables: bool, b: Standing, c: Standing, d: Desired) {
    && KeptAt(derive, iptables, UnsoundOne(derive, d), b, c)
    && OnlyAt(b.w, c.w, d.inst.id) && c.ifaces - {d.inst.id} == b.ifaces - {d.inst.id}
    && LinkKept(b, c, d) && (Repeated(b, d) ==> Unmoved(b, c))
    && (c.alive && c.clean ==> InstalledFrom(derive, b, c, d))
  }

  /** A pass over the wanted inbounds, some of it done. */
  ghost predicate Brought(derive: Derive, iptables: bool, bad: set<int>, a: Standing, b: Standing,
                          done: seq<Desired>) {
    && KeptAt(derive, iptables, bad, a, b) && OnlyIn(a, b, Ids(done))
    && (AllRepeated(a, done) ==> Unmoved(a, b))
    && (Distinct(done) ==> LinksKept(a, b, done))
    && (b.alive && b.clean && Distinct(done) ==> AllInstalled(derive, a, b, done))
  }

  lemma BroughtNone(derive: Derive, iptables: bool, bad: set<int>, a: Standing)
    ensures Brought(derive, iptables, bad, a, a, [])
  {
    KeptSame(derive, iptables, bad, a, 0);
  }

  lemma BroughtOneMore(derive: Derive, iptables: bool, a: Standing, b: Standing, c: Standing, ds: seq<Desired>, k: nat)
    requires k < |ds| && Brought(derive, iptables, Unsound(derive, ds), a, b, ds[..k])
    requires BroughtOne(derive, iptables, b, c, ds[k])
    ensures Brought(derive, iptables, Unsound(derive, ds), a, c, ds[..k + 1])
  {
    NextOf(derive, ds, k);
    BroughtNext(derive, iptables, Unsound(derive, ds), a, b, c, ds[..k], ds[k]);
  }

  lemma NextOf(derive: Derive, ds: seq<Desired>, k: nat)
    requires k < |ds|
    ensures ds[..k + 1] == ds[..k] + [ds[k]] && UnsoundOne(derive, ds[k]) <= Unsound(derive, ds)
  {
    assert ds[k] in ds;
  }

  lemma DistinctFront(done: seq<Desired>, d: Desired)
    requires Distinct(done + [d])
    ensures Distinct(done) && d.inst.id !in Ids(done)
  {
    assert forall i :: 0 <= i < |done| ==> (done + [d])[i] == done[i];
    assert (done + [d])[|done|] == d;
  }

  lemma LinksKeptToo(a: Standing, b: Standing, c: Standing, done: seq<Desired>, d: Desired)
    requires LinksKept(a, b, done) && LinkKept(b, c, d) && OnlyIn(a, b, Ids(done)) && d.inst.id !in Ids(done)
    requires OnlyAt(b.w, c.w, d.inst.id) && c.ifaces - {d.inst.id} == b.ifaces - {d.inst.id}
    ensures LinksKept(a, c, done + [d])
  {
    forall e | e in done ensures LinkKept(a, c, e) {
      assert e.inst.id in Ids(done);
      UntouchedElsewhere(b, c, d.inst.id, e.inst.id);
      LinkKeptMore(a, b, c, e);
    }
    assert Untouched(a, b, d.inst.id);
    LinkKeptSince(a, b, c, d);
  }

  lemma LinkKeptMore(a: Standing, b: Standing, c: Standing, d: Desired)
    requires LinkKept(a, b, d) && Untouched(b, c, d.inst.id)
    ensures LinkKept(a, c, d)
  {
    if SpecOf(d).Ok? {
      SpecConf(d);
    }
  }

  lemma LinkKeptSince(a: Standing, b: Standing, c: Standing, d: Desired)
    requires Untouched(a, b, d.inst.id) && LinkKept(b, c, d)
    ensures LinkKept(a, c, d)
  {
    if SpecOf(d).Ok? {
      SpecConf(d);
    }
  }

  lemma BroughtNext(derive: Derive, iptables: bool, bad: set<int>, a: Standing, b: Standing, c: Standing,
                    done: seq<Desired>, d: Desired)
    requires Brought(derive, iptables, bad, a, b, done)
    requires UnsoundOne(derive, d) <= bad && BroughtOne(derive, iptables, b, c, d)
    ensures Brought(derive, iptables, bad, a, c, done + [d])
  {
    KeptTwice(derive, iptables, bad, UnsoundOne(derive, d), a, b, c);
    OnlyInTwice(a, b, c, Ids(done), d.inst.id);
    assert Ids(done + [d]) == Ids(done) + {d.inst.id};
    RepeatedToo(a, b, c, done, d);
    if Distinct(done + [d]) {
      DistinctFront(done, d);
      LinksKeptToo(a, b, c, done, d);
      if c.alive && c.clean {
        InstalledToo(derive, a, b, c, done, d);
      }
    }
  }

  lemma RepeatedToo(a: Standing, b: Standing, c: Standing, done: seq<Desired>, d: Desired)
    requires AllRepeated(a, done) ==> Unmoved(a, b)
    requires Repeated(b, d) ==> Unmoved(b, c)
    ensures AllRepeated(a, done + [d]) ==> Unmoved(a, c)
  {
    if AllRepeated(a, done + [d]) {
      assert forall e :: e in done ==> e in done + [d];
      assert d in done + [d];
    }
  }

  lemma InstalledConverged(derive: Derive, iptables: bool, a: Standing, b: Standing, ds: seq<Desired>)
    requires AllInstalled(derive, a, b, ds) && AllAccurate(b.w, iptables, b.ifaces)
    ensures AllConverged(derive, iptables, a, b, ds)
  {
    forall d | d in ds && SpecOf(d).Ok? && Accepts(derive, a.w, a.ifaces, d.inst.id)
      ensures Converged(b.w, iptables, SpecOf(d).value) && (SpecOf(d).value.forward.egress != "" ==> b.forwarding) {
      assert InstalledFrom(derive, a, b, d);
      SpecIsWellFormed(d);
    }
  }

  lemma ReachedInstalled(derive: Derive, ok: bool, a: Standing, b: Standing, iptables: bool, d: Desired, s: Spec)
    requires SpecOf(d) == Ok(s) && s.id == d.inst.id
    requires Installed(ok, a.ifaces, b.ifaces, s)
    requires ok <==> Accepts(derive, a.w, a.ifaces, s.id)
    requires ok ==> Reached(a.w, a.ifaces, b.w, iptables, s)
    requires ok && s.forward.egress != "" ==> b.forwarding
    ensures InstalledFrom(derive, a, b, d)
  {
  }

  lemma InstalledOnly(ok: bool, a: Standing, b: Standing, s: Spec)
    requires Installed(ok, a.ifaces, b.ifaces, s)
    ensures b.ifaces - {s.id} == a.ifaces - {s.id}
  {
  }

  lemma BroughtConverged(derive: Derive, iptables: bool, a: Standing, b: Standing, ds: seq<Desired>)
    requires Brought(derive, iptables, Unsound(derive, ds), a, b, ds)
    ensures b.alive && b.clean && AccurateNow(iptables, a) && Distinct(ds) ==>
      AllConverged(derive, iptables, a, b, ds)
  {
    if b.alive && b.clean && AccurateNow(iptables, a) && Distinct(ds) {
      InstalledConverged(derive, iptables, a, b, ds);
    }
  }

  /** Every wanted inbound that has a spec and met no foreign link or config is as its spec says, and
      the host forwards if one of these has an egress. */
  predicate AllConverged(derive: Derive, iptables: bool, a: Standing, b: Standing, ds: seq<Desired>) {
    forall d :: d in ds && SpecOf(d).Ok? && Accepts(derive, a.w, a.ifaces, d.inst.id) ==>
      Converged(b.w, iptables, SpecOf(d).value) && (SpecOf(d).value.forward.egress != "" ==> b.forwarding)
  }

  /** Removing others does not change what a wanted inbound meets. */
  lemma SameAccepts(derive: Derive, a: Standing, b: Standing, ds: seq<Desired>)
    requires SameFor(a, b, Ids(ds))
    ensures forall d :: d in ds ==>
      Accepts(derive, a.w, a.ifaces, d.inst.id) == Accepts(derive, b.w, b.ifaces, d.inst.id)
  {
    forall d | d in ds ensures Accepts(derive, a.w, a.ifaces, d.inst.id) == Accepts(derive, b.w, b.ifaces, d.inst.id) {
      assert d.inst.id in Ids(ds);
      SameAcceptsAt(derive, a, b, d.inst.id);
    }
  }

  lemma RemovedKept(derive: Derive, iptables: bool, a: Standing, b: Standing, id: int)
    requires OnlyAt(a.w, b.w, id) && b.ifaces in {a.ifaces, a.ifaces - {id}}
    requires b.w.links in {a.w.links, a.w.links - {id}}
    requires forall j :: j in a.ifaces ==> a.ifaces[j].spec.id == j && WellFormed(a.ifaces[j].spec)
    requires b.staleSyncs == a.staleSyncs && b.failedRebuilds == a.failedRebuilds
    requires (b.alive ==> a.alive) && (b.clean ==> a.clean) && (!a.alive ==> b.w == a.w)
    requires a.forwarding ==> b.forwarding
    requires CrashSafeAt(derive, a.w, id) ==> CrashSafeAt(derive, b.w, id)
    requires Foreign(derive, a.w, a.ifaces, id) ==> b.w == a.w && b.ifaces == a.ifaces
    requires b.alive && b.clean && b.w != a.w ==>
      id !in b.ifaces && (iptables ==> Tagged(b.w.forward, ForwardComment(id)) == [])
    ensures KeptAt(derive, iptables, {}, a, b)
  {
    SafeButHere(derive, a.w, b.w, id, {} + b.staleSyncs);
    SteadyHere(derive, a, b, id, {});
    ForeignHere(derive, a, b, id);
    UnownedKept(a.w.forward, b.w.forward, id);
    if b.alive && b.clean && AllAccurate(a.w, iptables, a.ifaces) {
      TrackRemoved(derive, iptables, a.w, b.w, a.ifaces, b.ifaces, id);
    }
  }

  lemma EnsuredAccurate(derive: Derive, iptables: bool, ok: bool, a: Standing, b: Standing, s: Spec)
    requires WellFormed(s) && forall j :: j in a.ifaces ==> a.ifaces[j].spec.id == j && WellFormed(a.ifaces[j].spec)
    requires OnlyAt(a.w, b.w, s.id) && Installed(ok, a.ifaces, b.ifaces, s) && (b.alive ==> a.alive)
    requires b.alive && b.clean ==> if ok then Reached(a.w, a.ifaces, b.w, iptables, s) else b.w == a.w
    ensures b.clean && AccurateNow(iptables, a) ==> AccurateNow(iptables, b)
  {
    if b.alive && b.clean && ok && AllAccurate(a.w, iptables, a.ifaces) {
      AccurateAfter(iptables, a.w, a.ifaces, b.w, b.ifaces, s);
    }
  }

  lemma EnsuredSteady(derive: Derive, ok: bool, a: Standing, b: Standing, s: Spec)
    requires WellFormed(s) && Sound(derive, s) && SteadyAt(derive, a, s.id) && s.id !in b.failedRebuilds
    requires s.id in a.ifaces ==> a.ifaces[s.id].spec.id == s.id && WellFormed(a.ifaces[s.id].spec)
    requires (b.alive ==> a.alive) && StaleGrows(derive, a, b, s)
    requires s.id !in b.staleSyncs ==> CrashSafeAt(derive, b.w, s.id)
    requires b.alive ==> FreshKept(derive, ok, a.w, a.ifaces, b.w, b.ifaces, s)
    requires KeepsFresh(ok, a.w, a.ifaces, b.w, s)
    ensures SteadyAt(derive, b, s.id)
  {
    if a.alive {
      FreshCannotTrap(derive, a.w, a.ifaces, s);
    }
  }

  /** A stale sync happens only in the trap. */
  predicate StaleGrows(derive: Derive, a: Standing, b: Standing, s: Spec) {
    || b.staleSyncs == a.staleSyncs
    || (b.staleSyncs == a.staleSyncs + {s.id} && a.alive && StaleTrap(derive, a.w, a.ifaces, s))
  }

  lemma EnsuredKept(derive: Derive, iptables: bool, ok: bool, a: Standing, b: Standing, s: Spec)
    requires (b.alive ==> a.alive) && (b.clean ==> a.clean) && (!a.alive ==> b.w == a.w)
    requires (a.forwarding ==> b.forwarding) && (ok && s.forward.egress != "" ==> b.forwarding)
    requires WellFormed(s) && forall j :: j in a.ifaces ==> a.ifaces[j].spec.id == j && WellFormed(a.ifaces[j].spec)
    requires OnlyAt(a.w, b.w, s.id) && Installed(ok, a.ifaces, b.ifaces, s) && StaleGrows(derive, a, b, s)
    requires Foreign(derive, a.w, a.ifaces, s.id) ==> !ok && b.w == a.w
    requires s.id !in b.staleSyncs && Sound(derive, s) && CrashSafeAt(derive, a.w, s.id) ==>
      CrashSafeAt(derive, b.w, s.id)
    requires b.failedRebuilds == a.failedRebuilds + if KeepsFresh(ok, a.w, a.ifaces, b.w, s) then {} else {s.id}
    requires b.alive && Sound(derive, s) && CrashSafeAt(derive, a.w, s.id) ==>
      FreshKept(derive, ok, a.w, a.ifaces, b.w, b.ifaces, s)
    requires b.alive && b.clean ==> if ok then Reached(a.w, a.ifaces, b.w, iptables, s) else b.w == a.w
    ensures KeptAt(derive, iptables, if Sound(derive, s) then {} else {s.id}, a, b)
  {
    var bad := if Sound(derive, s) then {} else {s.id};
    InstalledOnly(ok, a, b, s);
    EgressInstalled(ok, a, b, s);
    SafeButHere(derive, a.w, b.w, s.id, bad + b.staleSyncs);
    if Sound(derive, s) && s.id !in b.failedRebuilds && SteadyAt(derive, a, s.id) {
      EnsuredSteady(derive, ok, a, b, s);
    }
    SteadyHere(derive, a, b, s.id, bad);
    EnsuredAccurate(derive, iptables, ok, a, b, s);
    ForeignHere(derive, a, b, s.id);
    UnownedKept(a.w.forward, b.w.forward, s.id);
  }

  /** The two halves of a Reconcile: what is not wanted has gone, then each wanted inbound was
      ensured. */
  lemma Reconciled(derive: Derive, iptables: bool, a: Standing, b: Standing, c: Standing, ds: seq<Desired>)
    requires KeptAt(derive, iptables, {}, a, b) && SameFor(a, b, Ids(ds))
    requires b.alive && b.clean ==> Unburdened(derive, iptables, a, b, Ids(ds))
    requires Brought(derive, iptables, Unsound(derive, ds), b, c, ds)
    ensures KeptAt(derive, iptables, Unsound(derive, ds), a, c)
    ensures c.alive && c.clean ==> Unburdened(derive, iptables, a, c, Ids(ds))
    ensures c.alive && c.clean && AccurateNow(iptables, a) && Distinct(ds) ==>
      AllConverged(derive, iptables, a, c, ds)
    ensures Distinct(ds) ==> LinksKept(a, c, ds)
  {
    SoundlyKept(derive, iptables, Unsound(derive, ds), a, b);
    KeptTwice(derive, iptables, Unsound(derive, ds), Unsound(derive, ds), a, b, c);
    BroughtConverged(derive, iptables, b, c, ds);
    SameAccepts(derive, a, b, ds);
    if c.alive && c.clean {
      StaysUnburdened(derive, iptables, a, b, c, Ids(ds));
    }
    if Distinct(ds) {
      WantedLinksKept(a, b, c, ds);
    }
  }

  lemma WantedLinksKept(a: Standing, b: Standing, c: Standing, ds: seq<Desired>)
    requires SameFor(a, b, Ids(ds)) && LinksKept(b, c, ds)
    ensures LinksKept(a, c, ds)
  {
    forall d | d in ds ensures LinkKept(a, c, d) {
      assert d.inst.id in Ids(ds);
      LinkKeptSince(a, b, c, d);
    }
  }

  lemma SoundlyKept(derive: Derive, iptables: bool, bad: set<int>, a: Standing, b: Standing)
    requires KeptAt(derive, iptables, {}, a, b)
    ensures KeptAt(derive, iptables, bad, a, b)
  {
  }
}
