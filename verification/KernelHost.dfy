/** The part of a Linux host that the kernel-interface manager drives: links, the panel's
    private configs, NAT tables and the FORWARD chain. Any command may fail, with or without
    having done its work, and the panel may die before any command. */
module KernelHost {
  import opened Text
  import opened KernelConfig
  import opened KernelOwnership

  /** What `awg show <link> public-key` can find. */
  datatype LiveKey = NotAmnezia | Keyless | Key(pub: string)

  /** `panel` records that the panel's own `ip link add` made the link, and `made` which one it
      was; no code reads either. */
  datatype Link = Link(panel: bool, made: nat, key: LiveKey, conf: string, addresses: seq<string>, mtu: int, up: bool)

  datatype File = Regular(text: string) | Irregular

  /** The match and target words of one FORWARD rule. */
  type Rule = seq<string>

  /** Interface names are the ids they print (`NameInjective`), so both key by id. */
  datatype World = World(
    links: map<int, Link>,
    disk: map<int, File>,
    tables: map<int, string>,
    forward: seq<Rule>)

  // ---------------------------------------------------------------------------
  // FORWARD rules
  // ---------------------------------------------------------------------------

  function ForwardComment(id: int): string { "3x-ui:" + OwnedInterfaceName(id) }

  /** hasCommentTag. */
  predicate HasCommentTag(fields: Rule, tag: string) {
    exists i :: 0 <= i < |fields| - 1 && fields[i] == "--comment" && fields[i + 1] == tag
  }

  function Tagged(chain: seq<Rule>, tag: string): seq<Rule> {
    if chain == [] then []
    else if HasCommentTag(chain[0], tag) then [chain[0]] + Tagged(chain[1..], tag)
    else Tagged(chain[1..], tag)
  }

  function Untagged(chain: seq<Rule>, tag: string): seq<Rule> {
    if chain == [] then []
    else if HasCommentTag(chain[0], tag) then Untagged(chain[1..], tag)
    else [chain[0]] + Untagged(chain[1..], tag)
  }

  /** `iptables -D`: the first rule written like this. */
  function RemoveFirst(chain: seq<Rule>, rule: Rule): seq<Rule> {
    if chain == [] then [] else if chain[0] == rule then chain[1..] else [chain[0]] + RemoveFirst(chain[1..], rule)
  }

  lemma {:induction false} RemoveTagged(chain: seq<Rule>, rule: Rule, tag: string)
    requires HasCommentTag(rule, tag)
    ensures Untagged(RemoveFirst(chain, rule), tag) == Untagged(chain, tag)
    ensures Tagged(chain, tag) != [] && Tagged(chain, tag)[0] == rule
        ==> rule in chain && Tagged(RemoveFirst(chain, rule), tag) == Tagged(chain, tag)[1..]
  {
    if chain != [] && chain[0] != rule {
      RemoveTagged(chain[1..], rule, tag);
    }
  }

  lemma {:induction false} RemoveFirstOnlyRemoves(chain: seq<Rule>, rule: Rule)
    ensures forall r :: r in RemoveFirst(chain, rule) ==> r in chain
  {
    if chain != [] && chain[0] != rule {
      RemoveFirstOnlyRemoves(chain[1..], rule);
    }
  }

  lemma {:induction false} HeadTags(r: Rule, chain: seq<Rule>, tag: string)
    ensures Tagged([r] + chain, tag) == if HasCommentTag(r, tag) then [r] + Tagged(chain, tag) else Tagged(chain, tag)
    ensures Untagged([r] + chain, tag) ==
      if HasCommentTag(r, tag) then Untagged(chain, tag) else [r] + Untagged(chain, tag)
  {
    assert ([r] + chain)[1..] == chain;
  }

  lemma {:induction false} TaggedAppend(a: seq<Rule>, b: seq<Rule>, tag: string)
    ensures Tagged(a + b, tag) == Tagged(a, tag) + Tagged(b, tag)
    ensures Untagged(a + b, tag) == Untagged(a, tag) + Untagged(b, tag)
  {
    if a == [] {
      assert a + b == b;
      assert Tagged(a, tag) == [] && Untagged(a, tag) == [];
    } else {
      var r, rest := a[0], a[1..];
      assert a == [r] + rest && a + b == [r] + (rest + b);
      HeadTags(r, rest + b, tag);
      HeadTags(r, rest, tag);
      TaggedAppend(rest, b, tag);
      if HasCommentTag(r, tag) {
        assert [r] + (Tagged(rest, tag) + Tagged(b, tag)) == [r] + Tagged(rest, tag) + Tagged(b, tag);
      } else {
        assert [r] + (Untagged(rest, tag) + Untagged(b, tag)) == [r] + Untagged(rest, tag) + Untagged(b, tag);
      }
    }
  }

  lemma {:induction false} AllUntagged(chain: seq<Rule>, tag: string)
    requires Tagged(chain, tag) == []
    ensures Untagged(chain, tag) == chain
  {
    if chain != [] {
      AllUntagged(chain[1..], tag);
    }
  }

  lemma {:induction false} UntaggedHasNone(chain: seq<Rule>, tag: string)
    ensures Tagged(Untagged(chain, tag), tag) == []
    ensures Untagged(Untagged(chain, tag), tag) == Untagged(chain, tag)
  {
    if chain != [] {
      UntaggedHasNone(chain[1..], tag);
      var rest := Untagged(chain[1..], tag);
      assert ([chain[0]] + rest)[1..] == rest;
    }
  }

  /** Dropping one interface's rules leaves another's, unless a rule carries both tags. */
  lemma {:induction false} OtherTagKept(chain: seq<Rule>, mine: string, other: string)
    requires forall r :: r in Tagged(chain, other) ==> !HasCommentTag(r, mine)
    ensures Tagged(Untagged(chain, mine), other) == Tagged(chain, other)
  {
    if chain != [] {
      forall r | r in Tagged(chain[1..], other) ensures !HasCommentTag(r, mine) {
        assert r in Tagged(chain, other);
      }
      if HasCommentTag(chain[0], other) {
        assert chain[0] in Tagged(chain, other);
      }
      OtherTagKept(chain[1..], mine, other);
      var rest := Untagged(chain[1..], mine);
      assert ([chain[0]] + rest)[1..] == rest;
    }
  }

  lemma {:induction false} TaggedIn(chain: seq<Rule>, tag: string, r: Rule)
    requires r in Tagged(chain, tag)
    ensures r in chain && HasCommentTag(r, tag)
  {
    if !(HasCommentTag(chain[0], tag) && r == chain[0]) {
      TaggedIn(chain[1..], tag, r);
    }
  }

  lemma {:induction false} InTagged(chain: seq<Rule>, tag: string, r: Rule)
    requires r in chain && HasCommentTag(r, tag)
    ensures r in Tagged(chain, tag)
  {
    if chain[0] != r {
      InTagged(chain[1..], tag, r);
    }
  }

  /** Any rule with this interface's tag was there before. */
  predicate NoNew(chain0: seq<Rule>, chain1: seq<Rule>, id: int) {
    forall r :: r in chain1 && HasCommentTag(r, ForwardComment(id)) ==> r in chain0
  }

  /** The rules without this interface's tag are the same, and none with another interface's tag
      has come in. */
  ghost predicate OthersKept(chain0: seq<Rule>, chain1: seq<Rule>, id: int) {
    && Untagged(chain1, ForwardComment(id)) == Untagged(chain0, ForwardComment(id))
    && forall j :: j != id ==> NoNew(chain0, chain1, j)
  }

  /** Some rules with this tag are gone, and nothing else has changed. */
  ghost predicate Thinned(chain0: seq<Rule>, chain1: seq<Rule>, tag: string) {
    Untagged(chain1, tag) == Untagged(chain0, tag) && forall r :: r in chain1 ==> r in chain0
  }

  lemma ThinnedNext(chain0: seq<Rule>, chain1: seq<Rule>, rule: Rule, tag: string)
    requires Thinned(chain0, chain1, tag) && HasCommentTag(rule, tag)
    ensures Thinned(chain0, RemoveFirst(chain1, rule), tag)
  {
    RemoveTagged(chain1, rule, tag);
    RemoveFirstOnlyRemoves(chain1, rule);
  }

  lemma ThinnedKeepsOthers(chain0: seq<Rule>, chain1: seq<Rule>, id: int)
    requires Thinned(chain0, chain1, ForwardComment(id))
    ensures OthersKept(chain0, chain1, id)
  {
  }

  lemma OthersKeptTwice(a: seq<Rule>, b: seq<Rule>, c: seq<Rule>, id: int)
    requires OthersKept(a, b, id) && OthersKept(b, c, id)
    ensures OthersKept(a, c, id)
  {
    forall j | j != id ensures NoNew(a, c, j) {
      assert NoNew(a, b, j) && NoNew(b, c, j);
    }
  }

  /** A rule with the comment of one of the panel's interfaces. */
  ghost predicate PanelRule(r: Rule) { exists id :: HasCommentTag(r, ForwardComment(id)) }

  /** The rules of others, in order. */
  ghost function Unowned(chain: seq<Rule>): seq<Rule> {
    if chain == [] then []
    else if PanelRule(chain[0]) then Unowned(chain[1..])
    else [chain[0]] + Unowned(chain[1..])
  }

  lemma {:induction false} UnownedUntagged(chain: seq<Rule>, id: int)
    ensures Unowned(Untagged(chain, ForwardComment(id))) == Unowned(chain)
  {
    if chain != [] {
      UnownedUntagged(chain[1..], id);
      if !HasCommentTag(chain[0], ForwardComment(id)) {
        var rest := Untagged(chain[1..], ForwardComment(id));
        assert ([chain[0]] + rest)[1..] == rest;
      } else {
        assert PanelRule(chain[0]);
      }
    }
  }

  /** Work on the panel's rules leaves the rules of others as they are. */
  lemma UnownedKept(chain0: seq<Rule>, chain1: seq<Rule>, id: int)
    requires OthersKept(chain0, chain1, id)
    ensures Unowned(chain1) == Unowned(chain0)
  {
    UnownedUntagged(chain0, id);
    UnownedUntagged(chain1, id);
  }

  lemma NoneTaggedStays(chain0: seq<Rule>, chain1: seq<Rule>, id: int)
    requires NoNew(chain0, chain1, id) && Tagged(chain0, ForwardComment(id)) == []
    ensures Tagged(chain1, ForwardComment(id)) == []
  {
    if Tagged(chain1, ForwardComment(id)) != [] {
      var r := Tagged(chain1, ForwardComment(id))[0];
      TaggedIn(chain1, ForwardComment(id), r);
      InTagged(chain0, ForwardComment(id), r);
    }
  }

  // ---------------------------------------------------------------------------
  // Reading ownership off the host
  // ---------------------------------------------------------------------------

  datatype Owned = Missing | Refused | Found(text: string)

  /** readOwnedConfig. */
  function ReadOwned(w: World, id: int): Owned {
    if id !in w.disk then Missing
    else if w.disk[id].Irregular? || !IsOwnedConfig(w.disk[id].text, OwnedInterfaceName(id)) then Refused
    else Found(w.disk[id].text)
  }

  /** verifyLiveInterface: the live key is the config's, or there is none yet. */
  predicate VerifyAccepts(derive: Derive, key: LiveKey, config: string) {
    var want := ConfigPublicKey(derive, config);
    want.Some? && (key == Keyless || key == Key(want.value))
  }

  /** A fresh manager finds an owned config for the link and verifies it. */
  predicate Recoverable(derive: Derive, w: World, id: int)
    requires id in w.links
  {
    var owned := ReadOwned(w, id);
    owned.Found? && VerifyAccepts(derive, w.links[id].key, owned.text)
  }

  predicate CrashSafeAt(derive: Derive, w: World, id: int) {
    id in w.links && w.links[id].panel ==> Recoverable(derive, w, id)
  }

  /** Every link the panel made can be proved to be the panel's after a crash right now. */
  predicate CrashSafe(derive: Derive, w: World) {
    forall id :: id in w.links ==> CrashSafeAt(derive, w, id)
  }

  /** Nothing that belongs to another interface, or to nobody of the panel, changed. */
  ghost predicate OnlyAt(w0: World, w1: World, id: int) {
    && w1.links - {id} == w0.links - {id}
    && w1.disk - {id} == w0.disk - {id}
    && w1.tables - {id} == w0.tables - {id}
    && OthersKept(w0.forward, w1.forward, id)
  }

  /** Nothing of this id has changed, and no FORWARD rule with its tag has come in. */
  predicate SameAt(w0: World, w1: World, id: int) {
    && (id in w1.links <==> id in w0.links) && (id in w1.links ==> w1.links[id] == w0.links[id])
    && (id in w1.disk <==> id in w0.disk) && (id in w1.disk ==> w1.disk[id] == w0.disk[id])
    && (id in w1.tables <==> id in w0.tables) && (id in w1.tables ==> w1.tables[id] == w0.tables[id])
    && NoNew(w0.forward, w1.forward, id)
  }

  lemma OnlyAtTwice(w0: World, w1: World, w2: World, id: int)
    requires OnlyAt(w0, w1, id) && OnlyAt(w1, w2, id)
    ensures OnlyAt(w0, w2, id)
  {
    OthersKeptTwice(w0.forward, w1.forward, w2.forward, id);
  }

  lemma OnlyAtOthers(w0: World, w1: World, id: int, j: int)
    requires OnlyAt(w0, w1, id) && j != id
    ensures SameAt(w0, w1, j)
  {
    assert j in w1.links <==> j in w1.links - {id};
    assert j in w0.links <==> j in w0.links - {id};
    assert j in w1.disk <==> j in w1.disk - {id};
    assert j in w0.disk <==> j in w0.disk - {id};
    assert j in w1.tables <==> j in w1.tables - {id};
    assert j in w0.tables <==> j in w0.tables - {id};
  }

  /** A panel link that could be proved to be the panel's still can, but for the ids in `bad`. */
  ghost predicate SafeBut(derive: Derive, w0: World, w1: World, bad: set<int>) {
    forall id :: id !in bad && CrashSafeAt(derive, w0, id) ==> CrashSafeAt(derive, w1, id)
  }

  /** Crash safety is lost at most where the host was touched. */
  lemma SafeButHere(derive: Derive, w0: World, w1: World, id: int, bad: set<int>)
    requires OnlyAt(w0, w1, id) && (id !in bad && CrashSafeAt(derive, w0, id) ==> CrashSafeAt(derive, w1, id))
    ensures SafeBut(derive, w0, w1, bad)
  {
    forall j | j !in bad && CrashSafeAt(derive, w0, j) ensures CrashSafeAt(derive, w1, j) {
      if j != id {
        OnlyAtOthers(w0, w1, id, j);
      }
    }
  }

  /** The world once a private config has been replaced. */
  function Written(w: World, id: int, text: string): World { w.(disk := w.disk[id := Regular(text)]) }

  // ---------------------------------------------------------------------------
  // The host
  // ---------------------------------------------------------------------------

  class Host {
    const derive: Derive
    const iptables: bool
    var w: World
    var moduleLoaded: bool
    /** net.ipv4.ip_forward. */
    var forwarding: bool
    /** False once the panel has died: nothing it would still do reaches the host. */
    var alive: bool
    /** False once a command failed. */
    var clean: bool
    /** How often nft, or turning IPv4 forwarding on, has answered with an error. */
    ghost var egressFailures: nat
    /** How often a command that an operation needs has answered with an error. */
    ghost var errors: nat
    /** How often a link that was to be deleted was reported as left. */
    ghost var undeleted: nat
    /** How many links the panel has added. */
    var created: nat

    constructor (derive: Derive, iptables: bool, w: World, loaded: bool, forwarding: bool)
      ensures this.derive == derive && this.iptables == iptables && this.w == w && alive && clean
      ensures moduleLoaded == loaded && this.forwarding == forwarding
    {
      this.derive, this.iptables, this.w, this.moduleLoaded := derive, iptables, w, loaded;
      this.forwarding := forwarding;
      alive, clean, egressFailures, errors, undeleted, created := true, true, 0, 0, 0, 0;
    }

    twostate predicate Later()
      reads this
    {
      && (alive ==> old(alive)) && (clean ==> old(clean)) && (!old(alive) ==> w == old(w))
      && (old(forwarding) ==> forwarding) && old(undeleted) <= undeleted
    }

    /** The panel may die before any command reaches the host. */
    method Begin() returns (up: bool)
      modifies `alive
      ensures up == alive && (alive ==> old(alive))
    {
      if * {
        alive := false;
      }
      up := alive;
    }

    method LinkExists(id: int) returns (b: bool)
      ensures b == (id in w.links)
    {
      b := id in w.links;
    }

    static predicate LinkMatches(w: World, id: int, addresses: seq<string>, mtu: int) {
      && id in w.links && w.links[id].mtu == mtu && addresses != []
      && forall a :: a in addresses ==> a in w.links[id].addresses
    }

    method ReadOwnedConfig(id: int) returns (owned: Owned)
      ensures owned == ReadOwned(w, id)
    {
      if id !in w.disk {
        return Missing;
      }
      if w.disk[id].Irregular? {
        return Refused;
      }
      var ok := ValidOwnedConfig(w.disk[id].text, OwnedInterfaceName(id));
      owned := if ok then Found(w.disk[id].text) else Refused;
    }

    /** writeConf: an atomic replace. */
    method WriteConf(id: int, text: string) returns (ok: bool)
      modifies `w, `alive, `clean, `errors
      ensures Later() && (ok ==> alive)
      ensures w == if ok then Written(old(w), id, text) else old(w)
      ensures alive && clean ==> ok
      ensures errors == old(errors) + if alive && !ok then 1 else 0
    {
      ok := Begin();
      if ok {
        if * {
          w := Written(w, id, text);
        } else {
          clean, ok := false, false;
        }
      }
      errors := errors + if alive && !ok then 1 else 0;
    }

    method RemoveConf(id: int) returns (ok: bool)
      modifies `w, `alive, `clean, `errors
      ensures Later()
      ensures w == old(w) || w == old(w).(disk := old(w).disk - {id})
      ensures alive && clean ==> ok
      ensures ok ==> w == old(w).(disk := old(w).disk - {id})
      ensures errors == old(errors) + if alive && !ok then 1 else 0
    {
      ok := Begin();
      if ok {
        if * {
          w := w.(disk := w.disk - {id});
        } else {
          clean, ok := false, false;
        }
      }
      errors := errors + if alive && !ok then 1 else 0;
    }

    /** awg show <link> public-key; an error for anything that is not an AmneziaWG link. */
    method ShowKey(id: int) returns (ok: bool, key: LiveKey)
      modifies `w, `alive, `clean
      ensures Later() && w == old(w)
      ensures ok ==> id in w.links && key == w.links[id].key && !key.NotAmnezia?
      ensures alive && clean && id in w.links && !w.links[id].key.NotAmnezia? ==> ok
    {
      key := NotAmnezia;
      ok := Begin();
      if ok {
        ok := id in w.links && !w.links[id].key.NotAmnezia?;
        if ok {
          if * {
            key := w.links[id].key;
          } else {
            clean, ok := false, false;
          }
        }
      }
    }

    method Modprobe() returns (ok: bool)
      modifies `w, `alive, `clean, `moduleLoaded, `errors
      ensures Later() && w == old(w)
      ensures (alive && clean ==> ok) && (ok ==> moduleLoaded)
      ensures errors == old(errors) + if alive && !ok then 1 else 0
    {
      ok := Begin();
      if ok {
        if * {
          moduleLoaded := true;
        } else {
          clean, ok := false, false;
        }
      }
      errors := errors + if alive && !ok then 1 else 0;
    }

    /** ip link add: the new link has no key and whatever MTU the module gives it. Without the
        module it cannot be relied on. */
    method LinkAdd(id: int) returns (ok: bool)
      modifies `w, `alive, `clean, `created, `errors
      ensures Later()
      ensures OnlyLink(old(w), w, id)
      ensures w == old(w) || id in w.links
      ensures w != old(w) ==> w.links[id] == Link(true, old(created), Keyless, "", [], w.links[id].mtu, false)
      ensures id in old(w).links ==> w == old(w)
      ensures ok ==> id in w.links && id !in old(w).links
      ensures alive && clean && moduleLoaded && id !in old(w).links ==> ok
      ensures errors == old(errors) + if alive && !ok then 1 else 0
    {
      ok := Begin();
      if ok {
        var mtu: int := *;
        var autoloaded: bool := *;
        created := created + 1;
        if id in w.links {
          clean, ok := false, false;
        } else if !moduleLoaded && !autoloaded {
          ok := false;
        } else if * {
          w := w.(links := w.links[id := Link(true, created - 1, Keyless, "", [], mtu, false)]);
        } else {
          clean, ok := false, false;
          if * {
            w := w.(links := w.links[id := Link(true, created - 1, Keyless, "", [], mtu, false)]);
          }
        }
      }
      errors := errors + if alive && !ok then 1 else 0;
    }

    static predicate OnlyLink(w0: World, w1: World, id: int) {
      w1.links - {id} == w0.links - {id} && w1.disk == w0.disk && w1.tables == w0.tables && w1.forward == w0.forward
    }

    /** ip link del. */
    method LinkDel(id: int) returns (ok: bool)
      modifies `w, `alive, `clean, `undeleted
      ensures Later()
      ensures w == old(w) || w == old(w).(links := old(w).links - {id})
      ensures alive && clean && id in old(w).links ==> ok
      ensures ok ==> id !in w.links
      ensures undeleted == old(undeleted) + if alive && !ok then 1 else 0
    {
      ok := Begin();
      if ok {
        if id !in w.links {
          clean, ok := false, false;
        } else if * {
          w := w.(links := w.links - {id});
        } else {
          clean, ok := false, false;
          if * {
            w := w.(links := w.links - {id});
          }
        }
      }
      undeleted := undeleted + if alive && !ok then 1 else 0;
    }

    /** awg setconf and awg syncconf: the link takes the key and peers of the file on disk.
        A failed call may have set the key and any part of the rest. */
    method ApplyConf(id: int) returns (ok: bool)
      modifies `w, `alive, `clean, `errors
      ensures Later()
      ensures OnlyLink(old(w), w, id)
      ensures id in w.links <==> id in old(w).links
      ensures id in w.links ==>
        var l0, l1 := old(w).links[id], w.links[id];
        && l1.panel == l0.panel && l1.made == l0.made
        && l1.addresses == l0.addresses && l1.mtu == l0.mtu && l1.up == l0.up
        && (l1.key == l0.key || KeyIsDisks(w, id))
        && (ok ==> id in w.disk && w.disk[id].Regular? && l1.conf == w.disk[id].text && KeyIsDisks(w, id))
      ensures ok ==> id in w.links
      ensures alive && clean ==> ok
      ensures errors == old(errors) + if alive && !ok then 1 else 0
    {
      ok := Begin();
      if ok {
        if id !in w.links || w.links[id].key.NotAmnezia? || id !in w.disk || w.disk[id].Irregular?
           || ConfigPublicKey(derive, w.disk[id].text).None? {
          clean, ok, errors := false, false, errors + 1;
          return;
        }
        var l := w.links[id];
        var key := Key(ConfigPublicKey(derive, w.disk[id].text).value);
        if * {
          w := w.(links := w.links[id := l.(key := key, conf := w.disk[id].text)]);
        } else {
          clean, ok := false, false;
          var partial: string := *;
          if * {
            w := w.(links := w.links[id := l.(key := key, conf := partial)]);
          } else {
            w := w.(links := w.links[id := l.(conf := partial)]);
          }
        }
      }
      errors := errors + if alive && !ok then 1 else 0;
    }

    /** The link's key is the one its config on disk names. */
    predicate KeyIsDisks(w: World, id: int)
      requires id in w.links
    {
      && id in w.disk && w.disk[id].Regular?
      && ConfigPublicKey(derive, w.disk[id].text).Some?
      && w.links[id].key == Key(ConfigPublicKey(derive, w.disk[id].text).value)
    }

    /** ip address add. */
    method AddressAdd(id: int, a: string) returns (ok: bool)
      modifies `w, `alive, `clean, `errors
      ensures Later()
      ensures OnlyLink(old(w), w, id)
      ensures id in w.links <==> id in old(w).links
      ensures id in w.links ==>
        var l0, l1 := old(w).links[id], w.links[id];
        l1 == l0 || l1 == l0.(addresses := l0.addresses + [a])
      ensures ok ==> id in w.links && w.links[id] == old(w).links[id].(addresses := old(w).links[id].addresses + [a])
      ensures alive && clean ==> ok
      ensures errors == old(errors) + if alive && !ok then 1 else 0
    {
      ok := Begin();
      if ok {
        if id !in w.links {
          clean, ok := false, false;
        } else {
          var l := w.links[id];
          if * {
            clean, ok := false, false;
          }
          var applied: bool := *;
          if ok || applied {
            w := w.(links := w.links[id := l.(addresses := l.addresses + [a])]);
          }
        }
      }
      errors := errors + if alive && !ok then 1 else 0;
    }

    /** ip link set mtu ... up. */
    method LinkUp(id: int, mtu: int) returns (ok: bool)
      modifies `w, `alive, `clean, `errors
      ensures Later()
      ensures OnlyLink(old(w), w, id)
      ensures id in w.links <==> id in old(w).links
      ensures id in w.links ==>
        var l0, l1 := old(w).links[id], w.links[id];
        l1 == l0 || l1 == l0.(mtu := mtu, up := true)
      ensures ok ==> id in w.links && w.links[id] == old(w).links[id].(mtu := mtu, up := true)
      ensures alive && clean ==> ok
      ensures errors == old(errors) + if alive && !ok then 1 else 0
    {
      ok := Begin();
      if ok {
        if id !in w.links {
          clean, ok := false, false;
        } else {
          var l := w.links[id];
          if * {
            clean, ok := false, false;
          }
          var applied: bool := *;
          if ok || applied {
            w := w.(links := w.links[id := l.(mtu := mtu, up := true)]);
          }
        }
      }
      errors := errors + if alive && !ok then 1 else 0;
    }

    static function NatApplied(w: World, id: int, chain: string): World {
      w.(tables := if chain == "" then w.tables - {id} else w.tables[id := chain])
    }

    /** nft -f: one transaction that replaces, or with no chain removes, the inbound's table. */
    method Nft(id: int, chain: string) returns (ok: bool)
      modifies `w, `alive, `clean, `egressFailures, `errors
      ensures Later()
      ensures w == old(w) || w == NatApplied(old(w), id, chain)
      ensures ok ==> w == NatApplied(old(w), id, chain)
      ensures alive && clean ==> ok
      ensures egressFailures == old(egressFailures) + if alive && !ok then 1 else 0
      ensures errors == old(errors) + if alive && !ok then 1 else 0
    {
      ok := Begin();
      if ok {
        if * {
          clean, ok := false, false;
          egressFailures := egressFailures + 1;
        }
        var applied: bool := *;
        if ok || applied {
          w := NatApplied(w, id, chain);
        }
      }
      errors := errors + if alive && !ok then 1 else 0;
    }

    /** Nothing the panel does turns it off again. */
    method EnableIPv4Forwarding() returns (ok: bool)
      modifies `alive, `clean, `egressFailures, `forwarding, `errors
      ensures Later() && (ok ==> forwarding)
      ensures alive && clean ==> ok
      ensures egressFailures == old(egressFailures) + if alive && !ok then 1 else 0
      ensures errors == old(errors) + if alive && !ok then 1 else 0
    {
      ok := Begin();
      if ok {
        if * {
          clean, ok := false, false;
          egressFailures := egressFailures + 1;
        }
        var written: bool := *;
        forwarding := forwarding || ok || written;
      }
      errors := errors + if alive && !ok then 1 else 0;
    }

    /** iptables -S FORWARD, with the quotes of each word trimmed. */
    method ListForward() returns (ok: bool, listing: seq<Rule>)
      modifies `w, `alive, `clean
      ensures Later() && w == old(w)
      ensures alive && clean ==> ok && listing == w.forward
    {
      listing := [];
      ok := Begin();
      if ok {
        if * {
          clean, ok := false, false;
        } else {
          listing := w.forward;
        }
      }
    }

    method DeleteForward(rule: Rule)
      modifies `w, `alive, `clean
      ensures Later()
      ensures w == old(w) || w == old(w).(forward := RemoveFirst(old(w).forward, rule))
      ensures alive && clean ==> w == old(w).(forward := RemoveFirst(old(w).forward, rule))
    {
      var up := Begin();
      if up {
        if * {
          clean := false;
        }
        var applied: bool := *;
        if clean || applied {
          w := w.(forward := RemoveFirst(w.forward, rule));
        }
      }
    }

    method InsertForward(rule: Rule)
      modifies `w, `alive, `clean
      ensures Later()
      ensures w == old(w) || w == old(w).(forward := [rule] + old(w).forward)
      ensures alive && clean ==> w == old(w).(forward := [rule] + old(w).forward)
    {
      var up := Begin();
      if up {
        if * {
          clean := false;
        }
        var applied: bool := *;
        if clean || applied {
          w := w.(forward := [rule] + w.forward);
        }
      }
    }

    /** ownedConfigIDs: the ids whose config on disk is the panel's; an unreadable directory
        gives none. */
    method OwnedConfigIDs() returns (ids: set<int>)
      modifies `w, `alive, `clean
      ensures Later() && w == old(w)
      ensures ids <= OwnedIDs(w)
      ensures alive && clean ==> ids == OwnedIDs(w)
    {
      ids := {};
      var up := Begin();
      if up {
        if * {
          clean := false;
        } else {
          ids := OwnedIDs(w);
        }
      }
    }

    static function OwnedIDs(w: World): set<int> {
      set id | id in w.disk && id > 0 && ReadOwned(w, id).Found?
    }
  }
}
