/** The manager of the embedded datapath: for each inbound it does nothing, reconfigures the
    device in place, or builds a new one, and it never leaves a flow alive under an address whose
    owner has changed. Each operation is one step; flows open and close between operations. */
module EmbeddedManager {
  import opened Sets
  import opened Text
  import opened Amnezia
  import opened PeerIndex
  import opened UapiConfig
  import opened V6Alias

  /** A live TCP endpoint or UDP session. `key` is the peer that owned its source when it was
      opened, by the key the device knows it by; no code reads it. */
  datatype Flow = Flow(id: nat, udp: bool, src: Addr, key: string)

  /** What a device was built with, which nothing changes while it lives; `number` tells devices
      apart. No code reads it. */
  datatype Device = Device(number: nat, address: seq<string>, mtu: int, listen: string)

  datatype Managed = Managed(
    structFP: string, inst: Instance, opts: Options, uapi: string, flows: set<Flow>, device: Device)

  datatype Desired = Desired(inst: Instance, opts: Options)

  // ---------------------------------------------------------------------------
  // What a device cannot change
  // ---------------------------------------------------------------------------

  function AddressPrint(mtu: int, address: seq<string>, listen: string): string {
    DecInt(mtu) + "|" + Join(address, ",") + "|" + listen
  }

  /** addressFingerprint. */
  function AddressFingerprint(listenFP: string -> string, inst: Instance): string {
    AddressPrint(EffectiveMTU(inst.mtu, inst.obfuscation.s4, DEFAULT_MTU), inst.address, listenFP(inst.listen))
  }

  /** Addresses with no separator of the fingerprint in them, and none blank. */
  predicate Separable(address: seq<string>) { forall a :: a in address ==> a != "" && '|' !in a && ',' !in a }

  lemma {:induction false} JoinSeparable(address: seq<string>)
    requires Separable(address)
    ensures '|' !in Join(address, ",") && (Join(address, ",") == "" <==> address == [])
  {
    if |address| > 1 {
      assert forall a :: a in address[1..] ==> a in address;
      JoinSeparable(address[1..]);
      assert address[0] in address && '|' !in ",";
    } else if |address| == 1 {
      assert address[0] in address;
    }
  }

  lemma JoinTells(a: seq<string>, b: seq<string>)
    requires Separable(a) && Separable(b) && Join(a, ",") == Join(b, ",")
    ensures a == b
  {
    JoinSeparable(a);
    JoinSeparable(b);
    if a != [] && b != [] {
      SplitJoin(a, ',');
      SplitJoin(b, ',');
    }
  }

  lemma NoBar(n: int)
    ensures '|' !in DecInt(n)
  {
    var digits := Dec(if n < 0 then -n else n);
    assert forall i :: 0 <= i < |digits| ==> digits[i] <= '9';
  }

  lemma SplitPrint(mtu: int, address: seq<string>, listen: string)
    requires Separable(address)
    ensures Split(AddressPrint(mtu, address, listen), '|')
         == [DecInt(mtu)] + ([Join(address, ",")] + Split(listen, '|'))
  {
    JoinSeparable(address);
    NoBar(mtu);
    var rest := Join(address, ",") + ['|'] + listen;
    assert AddressPrint(mtu, address, listen) == DecInt(mtu) + ['|'] + rest;
    SplitAfter(DecInt(mtu), '|', rest);
    SplitAfter(Join(address, ","), '|', listen);
  }

  /** The fingerprint tells MTU, addresses and listen address apart. */
  lemma PrintTells(m1: int, a1: seq<string>, l1: string, m2: int, a2: seq<string>, l2: string)
    requires Separable(a1) && Separable(a2) && AddressPrint(m1, a1, l1) == AddressPrint(m2, a2, l2)
    ensures m1 == m2 && a1 == a2 && l1 == l2
  {
    SplitPrint(m1, a1, l1);
    SplitPrint(m2, a2, l2);
    var parts := Split(AddressPrint(m1, a1, l1), '|');
    assert parts[0] == DecInt(m1) == DecInt(m2) && parts[1] == Join(a1, ",") == Join(a2, ",");
    assert parts[2..] == Split(l1, '|') == Split(l2, '|');
    DecIntInjective(m1, m2);
    JoinTells(a1, a2);
    JoinSplit(l1, '|');
    JoinSplit(l2, '|');
  }

  // ---------------------------------------------------------------------------
  // Owners
  // ---------------------------------------------------------------------------

  /** The key of the peer that owns the address. */
  function OwnerKey(parse: Parser, hex: Hex, peers: seq<Peer>, a: Addr): Option<string> {
    var p := Owner(parse, peers, a); if p.None? then None else hex(p.value.publicKey)
  }

  /** Index entries that differ at most in what the device does not see. */
  predicate SameEntries(hex: Hex, es: seq<Entry>, fs: seq<Entry>) {
    |es| == |fs| && forall i :: 0 <= i < |es| ==>
      es[i].prefix == fs[i].prefix && hex(es[i].peer.publicKey) == hex(fs[i].peer.publicKey)
  }

  lemma {:induction false} SamePeerEntries(parse: Parser, hex: Hex, ips: seq<string>, p: Peer, q: Peer)
    requires hex(p.publicKey) == hex(q.publicKey)
    ensures SameEntries(hex, EntriesOfPeer(parse, ips, p), EntriesOfPeer(parse, ips, q))
  {
    if ips != [] {
      SamePeerEntries(parse, hex, ips[1..], p, q);
    }
  }

  /** Peers the device is told the same about have the same index entries. */
  lemma {:induction false} SameViewsSameEntries(parse: Parser, hex: Hex, ps: seq<Peer>, qs: seq<Peer>)
    requires Views(hex, ps).Some? && Views(hex, ps) == Views(hex, qs)
    ensures SameEntries(hex, Entries(parse, ps), Entries(parse, qs))
  {
    ViewsLength(hex, ps);
    ViewsLength(hex, qs);
    if ps != [] {
      var vs := Views(hex, ps).value;
      assert vs[0] == ViewOf(hex, ps[0]).value && vs[1..] == Views(hex, ps[1..]).value;
      assert vs[0] == ViewOf(hex, qs[0]).value && vs[1..] == Views(hex, qs[1..]).value;
      SamePeerEntries(parse, hex, ps[0].allowedIPs, ps[0], qs[0]);
      SameViewsSameEntries(parse, hex, ps[1..], qs[1..]);
    }
  }

  lemma {:induction false} ViewsLength(hex: Hex, ps: seq<Peer>)
    requires Views(hex, ps).Some?
    ensures |Views(hex, ps).value| == |ps|
  {
    if ps != [] {
      ViewsLength(hex, ps[1..]);
    }
  }

  /** Routing tables with the same prefixes and the same keys behind them. */
  predicate SameTable(hex: Hex, t: map<Addr, Peer>, u: map<Addr, Peer>) {
    t.Keys == u.Keys && forall a :: a in t ==> hex(t[a].publicKey) == hex(u[a].publicKey)
  }

  lemma {:induction false} SameEntriesSameTable(hex: Hex, es: seq<Entry>, fs: seq<Entry>)
    requires SameEntries(hex, es, fs)
    ensures SameTable(hex, Table(es), Table(fs))
  {
    if es != [] {
      SameEntriesSameTable(hex, es[..|es| - 1], fs[..|fs| - 1]);
    }
  }

  lemma {:induction false} SameTableSameOwner(hex: Hex, t: map<Addr, Peer>, u: map<Addr, Peer>, a: Addr, n: nat)
    requires SameTable(hex, t, u) && n <= |a.bits|
    ensures Longest(t, a, n).Some? <==> Longest(u, a, n).Some?
    ensures Longest(t, a, n).Some? ==> hex(Longest(t, a, n).value.publicKey) == hex(Longest(u, a, n).value.publicKey)
  {
    if n > 0 {
      SameTableSameOwner(hex, t, u, a, n - 1);
    }
  }

  /** An unchanged text means unchanged owners. */
  lemma SameConfigSameOwners(parse: Parser, hex: Hex, i1: Instance, o1: Options, i2: Instance, o2: Options, a: Addr)
    requires Config(hex, i1, o1).Ok? && Config(hex, i1, o1) == Config(hex, i2, o2)
    requires AllOneLine(ConfigLines(hex, i1, o1).value) && AllOneLine(ConfigLines(hex, i2, o2).value)
    ensures OwnerKey(parse, hex, i1.peers, a) == OwnerKey(parse, hex, i2.peers, a)
  {
    ConfigTellsPeersApart(hex, i1, o1, i2, o2);
    SameViewsSameEntries(parse, hex, i1.peers, i2.peers);
    SameEntriesSameTable(hex, Entries(parse, i1.peers), Entries(parse, i2.peers));
    SameTableSameOwner(hex, Table(Entries(parse, i1.peers)), Table(Entries(parse, i2.peers)), a, |a.bits|);
  }

  /** The address has no owner any more, or one with another key. */
  predicate Reassigned(parse: Parser, before: seq<Peer>, now: seq<Peer>, a: Addr) {
    var was, present := Owner(parse, before, a), Owner(parse, now, a);
    was.Some? && (present.None? || present.value.publicKey != was.value.publicKey)
  }

  /** The flows that survive a change of peers. */
  function Surviving(parse: Parser, flows: set<Flow>, before: seq<Peer>, now: seq<Peer>): set<Flow> {
    set f | f in flows && !Reassigned(parse, before, now, f.src)
  }

  lemma OneMoreSurvivor(parse: Parser, done: set<Flow>, f: Flow, before: seq<Peer>, now: seq<Peer>)
    ensures Surviving(parse, done + {f}, before, now) ==
      if Reassigned(parse, before, now, f.src) then Surviving(parse, done, before, now) - {f}
      else Surviving(parse, done, before, now) + {f}
  {
  }

  lemma DroppedOne(parse: Parser, flows: set<Flow>, todo: set<Flow>, f: Flow, before: seq<Peer>, now: seq<Peer>)
    requires f in todo && todo <= flows
    ensures
      var left := Surviving(parse, flows - todo, before, now) + todo;
      Surviving(parse, flows - (todo - {f}), before, now) + (todo - {f})
        == if Reassigned(parse, before, now, f.src) then left - {f} else left
  {
    OneMoreSurvivor(parse, flows - todo, f, before, now);
    assert flows - (todo - {f}) == flows - todo + {f};
    assert f !in Surviving(parse, flows - todo, before, now);
  }

  // ---------------------------------------------------------------------------
  // What holds of every managed interface
  // ---------------------------------------------------------------------------

  predicate Configured(hex: Hex, listenFP: string -> string, m: Managed) {
    && Config(hex, m.inst, m.opts) == Ok(m.uapi) && m.structFP == AddressFingerprint(listenFP, m.inst)
    && m.structFP == AddressPrint(m.device.mtu, m.device.address, m.device.listen)
  }

  /** No value the text carries has a line break in it. */
  predicate Plain(hex: Hex, inst: Instance, opts: Options) {
    ConfigLines(hex, inst, opts).Ok? ==> AllOneLine(ConfigLines(hex, inst, opts).value)
  }

  /** Every live flow still belongs to the peer it was opened for. */
  predicate FlowsOwned(parse: Parser, hex: Hex, m: Managed) {
    Plain(hex, m.inst, m.opts) && forall f :: f in m.flows ==> OwnerKey(parse, hex, m.inst.peers, f.src) == Some(f.key)
  }

  lemma SurvivorsOwned(parse: Parser, hex: Hex, flows: set<Flow>, before: seq<Peer>, now: seq<Peer>)
    requires forall f :: f in flows ==> OwnerKey(parse, hex, before, f.src) == Some(f.key)
    ensures forall f :: f in Surviving(parse, flows, before, now) ==> OwnerKey(parse, hex, now, f.src) == Some(f.key)
    ensures forall f :: f in flows && KeepsOwner(parse, before, now, f.src) ==>
      f in Surviving(parse, flows, before, now)
  {
  }

  /** The address belongs to the same key before and after. */
  predicate KeepsOwner(parse: Parser, before: seq<Peer>, now: seq<Peer>, a: Addr) {
    var was, present := Owner(parse, before, a), Owner(parse, now, a);
    was.Some? && present.Some? && was.value.publicKey == present.value.publicKey
  }

  lemma UnchangedOwned(parse: Parser, hex: Hex, listenFP: string -> string, m: Managed, inst: Instance, opts: Options)
    requires Configured(hex, listenFP, m) && FlowsOwned(parse, hex, m)
    requires Config(hex, inst, opts) == Ok(m.uapi) && Plain(hex, inst, opts)
    ensures FlowsOwned(parse, hex, m.(inst := inst, opts := opts))
  {
    forall f | f in m.flows ensures OwnerKey(parse, hex, inst.peers, f.src) == Some(f.key) {
      SameConfigSameOwners(parse, hex, m.inst, m.opts, inst, opts, f.src);
    }
  }

  predicate AllConfigured(hex: Hex, listenFP: string -> string, ifaces: map<int, Managed>) {
    forall id :: id in ifaces ==> ifaces[id].inst.id == id && Configured(hex, listenFP, ifaces[id])
  }

  predicate AllOwned(parse: Parser, hex: Hex, ifaces: map<int, Managed>) {
    forall id :: id in ifaces ==> FlowsOwned(parse, hex, ifaces[id])
  }

  lemma ReplacedKeeps(parse: Parser, hex: Hex, listenFP: string -> string, ifaces: map<int, Managed>, m: Managed,
                      owned: bool)
    requires AllConfigured(hex, listenFP, ifaces) && Configured(hex, listenFP, m)
    requires owned ==> AllOwned(parse, hex, ifaces) && FlowsOwned(parse, hex, m)
    ensures AllConfigured(hex, listenFP, ifaces[m.inst.id := m])
    ensures owned ==> AllOwned(parse, hex, ifaces[m.inst.id := m])
    ensures ifaces[m.inst.id := m] - {m.inst.id} == ifaces - {m.inst.id}
  {
    var id, after := m.inst.id, ifaces[m.inst.id := m];
    forall j | j in after ensures after[j].inst.id == j && Configured(hex, listenFP, after[j]) {
      assert j != id ==> after[j] == ifaces[j];
    }
    if owned {
      forall j | j in after ensures FlowsOwned(parse, hex, after[j]) {
        assert j != id ==> after[j] == ifaces[j];
      }
    }
  }

  lemma RemovedKeeps(parse: Parser, hex: Hex, listenFP: string -> string, ifaces: map<int, Managed>, ids: set<int>)
    requires AllConfigured(hex, listenFP, ifaces)
    ensures AllConfigured(hex, listenFP, ifaces - ids)
    ensures AllOwned(parse, hex, ifaces) ==> AllOwned(parse, hex, ifaces - ids)
  {
  }

  /** The device's number has been given out, and the device has the cached text, or an unknown one
      since a configuration was refused. */
  predicate Told(told: seq<Option<string>>, m: Managed) {
    m.device.number < |told| && told[m.device.number] in {None, Some(m.uapi)}
  }

  /** No two interfaces share a device. */
  predicate AllTold(told: seq<Option<string>>, ifaces: map<int, Managed>) {
    && (forall id :: id in ifaces ==> Told(told, ifaces[id]))
    && (forall i, j :: i in ifaces && j in ifaces && i != j ==> ifaces[i].device.number != ifaces[j].device.number)
  }

  predicate InStep(told: seq<Option<string>>, m: Managed) {
    m.device.number < |told| && told[m.device.number] == Some(m.uapi)
  }

  /** Every device has the text its interface is listed with. */
  predicate AllInStep(told: seq<Option<string>>, ifaces: map<int, Managed>) {
    forall id :: id in ifaces ==> InStep(told, ifaces[id])
  }

  /** Only this interface's device was told anything, or made. */
  predicate OthersTold(told0: seq<Option<string>>, told1: seq<Option<string>>, m0: map<int, Managed>, id: int) {
    |told0| <= |told1| && forall n :: 0 <= n < |told0| && !(id in m0 && m0[id].device.number == n) ==>
      told1[n] == told0[n]
  }

  /** An interface is on its old device or on one just made. */
  predicate OldOrNew(told0: seq<Option<string>>, m0: map<int, Managed>, m1: map<int, Managed>, id: int) {
    id in m1 ==> m1[id].device.number >= |told0| || (id in m0 && m1[id].device == m0[id].device)
  }

  lemma ToldKept(told0: seq<Option<string>>, told1: seq<Option<string>>, m0: map<int, Managed>, m1: map<int, Managed>,
                 id: int)
    requires AllTold(told0, m0) && OthersTold(told0, told1, m0, id) && m1 - {id} == m0 - {id}
    requires OldOrNew(told0, m0, m1, id) && (id in m1 ==> Told(told1, m1[id]))
    ensures AllTold(told1, m1)
    ensures AllInStep(told0, m0) && (id in m1 ==> InStep(told1, m1[id])) ==> AllInStep(told1, m1)
  {
    forall j | j in m1 && j != id
      ensures j in m0 && m1[j] == m0[j] && told1[m0[j].device.number] == told0[m0[j].device.number]
    {
      assert j in m1 - {id} && (m0 - {id})[j] == m1[j];
    }
  }

  /** Flows come and go on the same devices. */
  lemma FlowsTold(told: seq<Option<string>>, ifaces: map<int, Managed>, id: int, flows: set<Flow>)
    requires AllTold(told, ifaces) && id in ifaces
    ensures AllTold(told, ifaces[id := ifaces[id].(flows := flows)])
    ensures AllInStep(told, ifaces) ==> AllInStep(told, ifaces[id := ifaces[id].(flows := flows)])
  {
  }

  lemma FewerTold(told: seq<Option<string>>, ifaces: map<int, Managed>, ids: set<int>)
    requires AllTold(told, ifaces)
    ensures AllTold(told, ifaces - ids) && (AllInStep(told, ifaces) ==> AllInStep(told, ifaces - ids))
  {
  }

  predicate Keyed(hex: Hex, peers: seq<Peer>) { forall p :: p in peers ==> hex(p.publicKey).Some? }

  lemma {:induction false} ConfiguredKeyed(hex: Hex, peers: seq<Peer>)
    requires Views(hex, peers).Some?
    ensures Keyed(hex, peers)
  {
    if peers != [] {
      ConfiguredKeyed(hex, peers[1..]);
    }
  }

  lemma {:induction false} EntryPeers(parse: Parser, peers: seq<Peer>)
    ensures forall e :: e in Entries(parse, peers) ==> e.peer in peers
  {
    if peers != [] {
      EntryPeers(parse, peers[1..]);
      OnePeerEntries(parse, peers[0].allowedIPs, peers[0]);
    }
  }

  lemma {:induction false} OnePeerEntries(parse: Parser, ips: seq<string>, p: Peer)
    ensures forall e :: e in EntriesOfPeer(parse, ips, p) ==> e.peer == p
  {
    if ips != [] {
      OnePeerEntries(parse, ips[1..], p);
    }
  }

  lemma {:induction false} TablePeers(entries: seq<Entry>, a: Addr)
    requires a in Table(entries)
    ensures exists e :: e in entries && e.peer == Table(entries)[a]
  {
    var last := entries[|entries| - 1];
    if a == last.prefix.Masked() {
      assert last in entries;
    } else {
      TablePeers(entries[..|entries| - 1], a);
      var e :| e in entries[..|entries| - 1] && e.peer == Table(entries)[a];
      assert e in entries;
    }
  }

  lemma {:induction false} LongestInTable(t: map<Addr, Peer>, a: Addr, n: nat)
    requires n <= |a.bits| && Longest(t, a, n).Some?
    ensures exists k :: k in t && t[k] == Longest(t, a, n).value
  {
    if Addr(a.v6, a.bits[..n]) !in t {
      LongestInTable(t, a, n - 1);
    }
  }

  /** An owner is one of the peers. */
  lemma OwnerIsPeer(parse: Parser, peers: seq<Peer>, a: Addr)
    ensures Owner(parse, peers, a).Some? ==> Owner(parse, peers, a).value in peers
  {
    var es := Entries(parse, peers);
    if Owner(parse, peers, a).Some? {
      LongestInTable(Table(es), a, |a.bits|);
      var k :| k in Table(es) && Table(es)[k] == Owner(parse, peers, a).value;
      TablePeers(es, k);
      EntryPeers(parse, peers);
    }
  }

  // ---------------------------------------------------------------------------
  // Aliases and the interfaces they are for
  // ---------------------------------------------------------------------------

  /** What the id's peers have on the host. */
  function WantedAt(first: FirstV6, ifaces: map<int, Managed>, id: int): Wanted {
    if id in ifaces then DesiredAliases(first, ifaces[id].inst) else map[]
  }

  predicate Wants(w: Wanted, a: Alias) { exists e :: e in w && w[e] == a }

  predicate WantedIn(first: FirstV6, ifaces: map<int, Managed>, a: Alias) {
    exists id :: id in ifaces && Wants(WantedAt(first, ifaces, id), a)
  }

  /** Every alias this process answers for is wanted by an interface that is up. */
  predicate NoOrphans(first: FirstV6, owned: set<Alias>, ifaces: map<int, Managed>) {
    forall a :: a in owned ==> WantedIn(first, ifaces, a)
  }

  /** Some alias this process answers for is wanted by this interface and by no other. */
  predicate SolelyWanted(first: FirstV6, owned: set<Alias>, ifaces: map<int, Managed>, id: int) {
    exists a :: a in owned && Wants(WantedAt(first, ifaces, id), a) && !WantedIn(first, ifaces - {id}, a)
  }

  /** What moving from one set of wishes to another comes to: nothing given up is answered for any
      more, nothing but what is newly wanted is answered for now, and without failures host and
      ownership are exactly as computed. */
  predicate Settled(clean: bool, a: Snapshot, b: Snapshot, w0: Wanted, w1: Wanted) {
    var add, remove := MovedAliases(w1, w0), MovedAliases(w0, w1);
    && b.owned <= a.owned + add && b.owned !! remove
    && (clean ==> b.host == HostAfter(a.host, a.owned, add, remove))
    && (clean ==> b.owned == OwnedAfter(a.host, a.owned, add, remove))
  }

  lemma SettledAlready(clean: bool, a: Snapshot)
    ensures Settled(clean, a, a, map[], map[]) && Touches(a, a, MovedBetween(map[], map[]))
  {
    var none: Wanted := map[];
    assert MovedAliases(none, none) == {};
    assert a.log[|a.log|..] == [];
    assert HostAfter(a.host, a.owned, {}, {}) == a.host && OwnedAfter(a.host, a.owned, {}, {}) == a.owned;
  }

  /** What is no longer answered for is exactly what went off the host. */
  predicate Withdrawn(a: Snapshot, b: Snapshot) { b.owned <= a.owned && b.host == a.host - (a.owned - b.owned) }

  lemma SettledWithdrawn(clean: bool, a: Snapshot, b: Snapshot, w0: Wanted)
    requires Settled(clean, a, b, w0, map[])
    ensures clean ==> Withdrawn(a, b)
  {
    assert MovedAliases(map[], w0) == {};
  }

  lemma WantedElsewhere(first: FirstV6, m0: map<int, Managed>, m1: map<int, Managed>, id: int, a: Alias)
    requires m1 - {id} == m0 - {id} && WantedIn(first, m0, a) && !Wants(WantedAt(first, m0, id), a)
    ensures WantedIn(first, m1, a)
  {
    var j :| j in m0 && Wants(WantedAt(first, m0, j), a);
    assert j in m0 - {id} && (m1 - {id})[j] == m0[j];
    assert j in m1 && Wants(WantedAt(first, m1, j), a);
  }

  /** A change of one interface's wishes orphans nothing, however the commands end. */
  lemma MovedNoOrphans(first: FirstV6, owned0: set<Alias>, owned1: set<Alias>, m0: map<int, Managed>,
                       m1: map<int, Managed>, id: int)
    requires NoOrphans(first, owned0, m0) && m1 - {id} == m0 - {id}
    requires owned1 <= owned0 + MovedAliases(WantedAt(first, m1, id), WantedAt(first, m0, id))
    requires owned1 !! MovedAliases(WantedAt(first, m0, id), WantedAt(first, m1, id))
    ensures NoOrphans(first, owned1, m1)
  {
    var w0, w1 := WantedAt(first, m0, id), WantedAt(first, m1, id);
    forall a | a in owned1 ensures WantedIn(first, m1, a) {
      if a in MovedAliases(w1, w0) {
        var e :| e in Moved(w1, w0) && w1[e] == a;
        assert id in m1 && Wants(w1, a);
      } else if Wants(w0, a) {
        var e :| e in w0 && w0[e] == a;
        assert e in Moved(w0, w1) ==> a in MovedAliases(w0, w1);
        assert id in m1 && Wants(w1, a);
      } else {
        WantedElsewhere(first, m0, m1, id, a);
      }
    }
  }

  /** An interface that goes down with its aliases left on the host orphans one exactly when it
      was the only one to want it. */
  lemma OrphanedIff(first: FirstV6, owned: set<Alias>, ifaces: map<int, Managed>, id: int)
    requires NoOrphans(first, owned, ifaces)
    ensures NoOrphans(first, owned, ifaces - {id}) <==> !SolelyWanted(first, owned, ifaces, id)
  {
    forall a | a in owned && !Wants(WantedAt(first, ifaces, id), a) ensures WantedIn(first, ifaces - {id}, a) {
      WantedElsewhere(first, ifaces, ifaces - {id}, id, a);
    }
  }

  lemma MovedTidy(first: FirstV6, owned0: set<Alias>, owned1: set<Alias>, m0: map<int, Managed>, m1: map<int, Managed>,
                  id: int)
    requires m1 - {id} == m0 - {id}
    requires owned1 <= owned0 + MovedAliases(WantedAt(first, m1, id), WantedAt(first, m0, id))
    requires owned1 !! MovedAliases(WantedAt(first, m0, id), WantedAt(first, m1, id))
    ensures NoOrphans(first, owned0, m0) ==> NoOrphans(first, owned1, m1)
  {
    if NoOrphans(first, owned0, m0) {
      MovedNoOrphans(first, owned0, owned1, m0, m1, id);
    }
  }

  lemma DroppedTidy(first: FirstV6, owned: set<Alias>, ifaces: map<int, Managed>, id: int)
    ensures NoOrphans(first, owned, ifaces) ==>
      (NoOrphans(first, owned, ifaces - {id}) <==> !SolelyWanted(first, owned, ifaces, id))
  {
    if NoOrphans(first, owned, ifaces) {
      OrphanedIff(first, owned, ifaces, id);
    }
  }

  lemma UnknownWantsNothing(first: FirstV6, owned: set<Alias>, ifaces: map<int, Managed>, id: int)
    requires id !in ifaces
    ensures !SolelyWanted(first, owned, ifaces, id)
  {
    assert WantedAt(first, ifaces, id) == map[];
  }

  /** Flows come and go without a change of wishes. */
  lemma FlowsWantNothing(first: FirstV6, owned: set<Alias>, ifaces: map<int, Managed>, id: int, m: Managed)
    requires id in ifaces && m.inst == ifaces[id].inst
    ensures NoOrphans(first, owned, ifaces) ==> NoOrphans(first, owned, ifaces[id := m])
  {
    forall a | WantedIn(first, ifaces, a) ensures WantedIn(first, ifaces[id := m], a) {
      var j :| j in ifaces && Wants(WantedAt(first, ifaces, j), a);
      assert WantedAt(first, ifaces[id := m], j) == WantedAt(first, ifaces, j);
    }
  }

  /** An inbound with one IPv6 peer, whose rebuild fails. */
  lemma FailedRebuildOrphans(first: FirstV6, p: Peer, m: Managed)
    requires p.email != "" && first(p.allowedIPs) != "" && m.inst.peers == [p]
    requires m.inst.ipv6Enabled && m.inst.ipv6ExternalInterface == "eth0"
    ensures
      var a, ifaces := Alias(first(p.allowedIPs), "eth0"), map[m.inst.id := m];
      && NoOrphans(first, {a}, ifaces) && SolelyWanted(first, {a}, ifaces, m.inst.id)
      && !NoOrphans(first, {a}, ifaces - {m.inst.id})
  {
    var a, id, ifaces := Alias(first(p.allowedIPs), "eth0"), m.inst.id, map[m.inst.id := m];
    var none: seq<Peer> := [];
    assert [p][..0] == none && WantedOf(first, none, "eth0") == map[];
    assert DesiredAliases(first, m.inst) == map[p.email := a];
    assert p.email in WantedAt(first, ifaces, id) && Wants(WantedAt(first, ifaces, id), a);
    assert ifaces - {id} == map[];
  }

  lemma FlowsReplaced(parse: Parser, hex: Hex, listenFP: string -> string, first: FirstV6,
                      told: seq<Option<string>>, owned: set<Alias>, m0: map<int, Managed>, id: int, flows: set<Flow>)
    requires AllConfigured(hex, listenFP, m0) && AllTold(told, m0) && id in m0
    requires FlowsOwned(parse, hex, m0[id]) ==> FlowsOwned(parse, hex, m0[id].(flows := flows))
    ensures var m1 := m0[id := m0[id].(flows := flows)];
      && AllConfigured(hex, listenFP, m1) && AllTold(told, m1)
      && (AllOwned(parse, hex, m0) ==> AllOwned(parse, hex, m1))
      && (NoOrphans(first, owned, m0) ==> NoOrphans(first, owned, m1)) && (AllInStep(told, m0) ==> AllInStep(told, m1))
  {
    var next := m0[id].(flows := flows);
    ReplacedKeeps(parse, hex, listenFP, m0, next, AllOwned(parse, hex, m0));
    FlowsWantNothing(first, owned, m0, id, next);
    FlowsTold(told, m0, id, flows);
  }

  /** The same of a standing. */
  lemma StandingReplaced(parse: Parser, hex: Hex, listenFP: string -> string, first: FirstV6,
                         told: seq<Option<string>>, a: Standing, b: Standing, id: int, flows: set<Flow>)
    requires AllConfigured(hex, listenFP, a.ifaces) && AllTold(told, a.ifaces) && id in a.ifaces
    requires FlowsOwned(parse, hex, a.ifaces[id]) ==> FlowsOwned(parse, hex, a.ifaces[id].(flows := flows))
    requires b == Stood(parse, hex, first, told, b.ifaces, a)
    requires b.ifaces == a.ifaces[id := a.ifaces[id].(flows := flows)]
    requires a == Stood(parse, hex, first, told, a.ifaces, a)
    ensures AllConfigured(hex, listenFP, b.ifaces) && AllTold(told, b.ifaces) && Kept(true, a, b)
  {
    FlowsReplaced(parse, hex, listenFP, first, told, a.aliases.owned, a.ifaces, id, flows);
    FlowsKept(a, b);
  }

  /** A standing with these interfaces instead. */
  ghost function Stood(parse: Parser, hex: Hex, first: FirstV6, told: seq<Option<string>>, m: map<int, Managed>,
                       a: Standing): Standing {
    a.(ifaces := m, owned := AllOwned(parse, hex, m), tidy := NoOrphans(first, a.aliases.owned, m),
       inStep := AllInStep(told, m))
  }

  lemma GivenUp(owned0: set<Alias>, owned1: set<Alias>, w0: Wanted)
    requires owned1 <= owned0 + MovedAliases(map[], w0)
    ensures owned1 <= owned0
  {
    assert MovedAliases(map[], w0) == {};
  }

  lemma TakenDown(parse: Parser, hex: Hex, listenFP: string -> string, first: FirstV6, told: seq<Option<string>>,
                  owned0: set<Alias>, owned1: set<Alias>, m0: map<int, Managed>, id: int)
    requires AllConfigured(hex, listenFP, m0) && AllTold(told, m0)
    requires owned1 <= owned0 && owned1 !! MovedAliases(WantedAt(first, m0, id), map[])
    ensures var m1 := m0 - {id};
      && AllConfigured(hex, listenFP, m1) && AllTold(told, m1)
      && (AllOwned(parse, hex, m0) ==> AllOwned(parse, hex, m1))
      && (NoOrphans(first, owned0, m0) ==> NoOrphans(first, owned1, m1))
      && (AllInStep(told, m0) ==> AllInStep(told, m1))
  {
    RemovedKeeps(parse, hex, listenFP, m0, {id});
    FewerTold(told, m0, {id});
    TakenDownTidy(first, owned0, owned1, m0, id);
  }

  lemma TakenDownTidy(first: FirstV6, owned0: set<Alias>, owned1: set<Alias>, m0: map<int, Managed>, id: int)
    requires owned1 <= owned0 && owned1 !! MovedAliases(WantedAt(first, m0, id), map[])
    ensures NoOrphans(first, owned0, m0) ==> NoOrphans(first, owned1, m0 - {id})
  {
    MinusTwice(m0, {id}, id);
    assert MovedAliases(map[], WantedAt(first, m0, id)) == {};
    MovedTidy(first, owned0, owned1, m0, m0 - {id}, id);
  }

  // ---------------------------------------------------------------------------
  // The manager
  // ---------------------------------------------------------------------------

  /** Where a run stands between two operations. */
  datatype Standing = Standing(
    ifaces: map<int, Managed>, aliases: Snapshot, clean: bool, refused: seq<int>, sets: seq<int>,
    owned: bool, tidy: bool, inStep: bool, failedRebuilds: nat)

  /** What every operation keeps; `plain` says that no printed value has a line break. */
  predicate Kept(plain: bool, a: Standing, b: Standing) {
    && Spares(a.aliases, b.aliases) && (b.clean ==> a.clean) && (plain && a.owned ==> b.owned)
    && a.failedRebuilds <= b.failedRebuilds && (a.tidy && b.failedRebuilds == a.failedRebuilds ==> b.tidy)
    && a.refused <= b.refused && (a.inStep && b.refused == a.refused ==> b.inStep)
  }

  lemma KeptSame(plain: bool, a: Standing)
    ensures Kept(plain, a, a)
  {
  }

  lemma StepKept(plain: bool, a: Standing, b: Standing)
    requires Spares(a.aliases, b.aliases) && (b.clean ==> a.clean) && a.failedRebuilds <= b.failedRebuilds
    requires (plain && a.owned ==> b.owned) && (a.tidy && b.failedRebuilds == a.failedRebuilds ==> b.tidy)
    requires a.refused <= b.refused && (a.inStep && b.refused == a.refused ==> b.inStep)
    ensures Kept(plain, a, b)
  {
  }

  lemma FlowsKept(a: Standing, b: Standing)
    requires b.aliases == a.aliases && b.clean == a.clean && b.failedRebuilds == a.failedRebuilds
    requires (a.owned ==> b.owned) && (a.tidy ==> b.tidy) && (a.inStep ==> b.inStep) && b.refused == a.refused
    ensures Kept(true, a, b)
  {
    KeptSame(true, a);
  }

  lemma KeptTwice(plain: bool, a: Standing, b: Standing, c: Standing)
    requires Kept(plain, a, b) && Kept(plain, b, c)
    ensures Kept(plain, a, c)
  {
    SparesTwice(a.aliases, b.aliases, c.aliases);
  }

  class Manager {
    const parse: Parser
    const hex: Hex
    const listenFP: string -> string
    const first: FirstV6
    const aliases: Aliases
    var ifaces: map<int, Managed>
    /** The interface each configuration of a device was for. */
    var ipcSets: seq<int>
    /** What each device was last configured with, by its number; nothing is known of one that was
        never configured, or whose last configuration was refused. */
    var told: seq<Option<string>>
    /** How often a rebuild took an interface down and did not bring it up again. */
    ghost var failedRebuilds: nat
    /** Every device call that was refused, by the interface it was for. */
    ghost var refused: seq<int>

    constructor (parse: Parser, hex: Hex, listenFP: string -> string, first: FirstV6, aliases: Aliases)
      requires aliases.Valid()
      ensures this.parse == parse && this.hex == hex
      ensures this.aliases == aliases && ifaces == map[] && failedRebuilds == 0
      ensures Valid() && Owned()
    {
      this.parse, this.hex, this.listenFP, this.first, this.aliases := parse, hex, listenFP, first, aliases;
      ifaces, ipcSets, failedRebuilds, refused, told := map[], [], 0, [], [];
    }

    ghost predicate Valid()
      reads this, aliases
    {
      aliases.Valid() && AllConfigured(hex, listenFP, ifaces) && AllTold(told, ifaces)
    }

    ghost predicate Owned()
      reads this
    {
      AllOwned(parse, hex, ifaces)
    }

    ghost predicate Tidy()
      reads this, aliases
    {
      NoOrphans(first, aliases.owned, ifaces)
    }

    ghost function Here(): Standing
      reads this, aliases
    {
      Standing(ifaces, aliases.Now(), aliases.clean, refused, ipcSets, Owned(), Tidy(), AllInStep(told, ifaces),
               failedRebuilds)
    }

    method MoveAliases(w0: Wanted, w1: Wanted)
      requires aliases.Valid()
      modifies aliases
      ensures aliases.Valid() && Spares(old(aliases.Now()), aliases.Now())
      ensures Touches(old(aliases.Now()), aliases.Now(), MovedBetween(w0, w1)) && (aliases.clean ==> old(aliases.clean))
      ensures w0 == w1 ==> aliases.Now() == old(aliases.Now())
      ensures Settled(aliases.clean, old(aliases.Now()), aliases.Now(), w0, w1)
    {
      var add, remove := Diff(w0, w1);
      assert Elements(add) == MovedAliases(w1, w0) && Elements(remove) == MovedAliases(w0, w1);
      aliases.Apply(add, remove);
      assert Elements(add) + Elements(remove) == MovedBetween(w0, w1);
    }

    /** A datagram or connection from src; unknown sources are dropped. */
    method Open(id: int, src: Addr, udp: bool, n: nat)
      requires Valid()
      modifies `ifaces
      ensures Valid() && Kept(true, old(Here()), Here())
      ensures id in old(ifaces) && OwnerKey(parse, hex, old(ifaces)[id].inst.peers, src).Some? ==>
        var f := Flow(n, udp, src, OwnerKey(parse, hex, old(ifaces)[id].inst.peers, src).value);
        ifaces == old(ifaces)[id := old(ifaces)[id].(flows := old(ifaces)[id].flows + {f})]
      ensures id !in old(ifaces) || Owner(parse, old(ifaces)[id].inst.peers, src).None? ==> ifaces == old(ifaces)
    {
      if id !in ifaces {
        KeptSame(true, Here());
        return;
      }
      var key := KeyOf(ifaces[id], src);
      if key.None? {
        KeptSame(true, Here());
        return;
      }
      SetFlows(id, ifaces[id].flows + {Flow(n, udp, src, key.value)});
    }

    /** Flows come and go; what they need keeps. */
    method SetFlows(id: int, flows: set<Flow>)
      requires Valid() && id in ifaces
      requires FlowsOwned(parse, hex, ifaces[id]) ==> FlowsOwned(parse, hex, ifaces[id].(flows := flows))
      modifies `ifaces
      ensures Valid() && Kept(true, old(Here()), Here())
      ensures ifaces == old(ifaces)[id := old(ifaces)[id].(flows := flows)]
    {
      ghost var before := Here();
      ifaces := ifaces[id := ifaces[id].(flows := flows)];
      StandingReplaced(parse, hex, listenFP, first, told, before, Here(), id, flows);
    }

    /** lookupPeer, by key: the peers of a configured interface all have one. */
    method KeyOf(m: Managed, src: Addr) returns (key: Option<string>)
      requires Configured(hex, listenFP, m)
      ensures key == OwnerKey(parse, hex, m.inst.peers, src)
      ensures key.None? <==> Owner(parse, m.inst.peers, src).None?
    {
      var index := NewPeerIndex(parse, m.inst.peers);
      var peer := Lookup(index, src);
      if peer.None? {
        return None;
      }
      OwnerIsPeer(parse, m.inst.peers, src);
      ConfiguredKeyed(hex, m.inst.peers);
      key := hex(peer.value.publicKey);
    }

    method EndFlow(id: int, f: Flow)
      requires Valid()
      modifies `ifaces
      ensures Valid() && Kept(true, old(Here()), Here())
      ensures ifaces == if id !in old(ifaces) then old(ifaces)
        else old(ifaces)[id := old(ifaces)[id].(flows := old(ifaces)[id].flows - {f})]
    {
      if id in ifaces {
        SetFlows(id, ifaces[id].flows - {f});
      } else {
        KeptSame(true, Here());
      }
    }

    predicate Accepted(d: Desired) { Config(hex, d.inst, d.opts).Ok? }

    /** It succeeds exactly when the settings can be rendered and no device call is refused. */
    twostate predicate Answered(ok: bool, d: Desired)
      reads this
    {
      && (ok <==> Accepted(d) && refused == old(refused))
      && (refused == old(refused) || refused == old(refused) + [d.inst.id])
      && (ipcSets == old(ipcSets) || ipcSets == old(ipcSets) + [d.inst.id])
    }

    /** Only this interface's device was told anything. After a success it has the text of the settings,
        but for a call that found nothing new, which leaves it in step or out of step as it was; after
        a refusal it is out of step. */
    predicate ToldAt(ok: bool, refusal: bool, told0: seq<Option<string>>, told1: seq<Option<string>>,
                     m0: map<int, Managed>, m1: map<int, Managed>, d: Desired) {
      && OthersTold(told0, told1, m0, d.inst.id) && OldOrNew(told0, m0, m1, d.inst.id)
      && (d.inst.id in m1 ==> Told(told1, m1[d.inst.id])) && (ok ==> d.inst.id in m1)
      && (ok ==> (InStep(told1, m1[d.inst.id]) <==> (Unchanged(m0, d) ==> InStep(told0, m0[d.inst.id]))))
      && (d.inst.id in m1 && !refusal && AllInStep(told0, m0) ==> InStep(told1, m1[d.inst.id]))
      && (d.inst.id in m1 && !ok && refusal ==> !InStep(told1, m1[d.inst.id]))
    }

    twostate predicate ToldStep(ok: bool, d: Desired)
      reads this
    {
      ToldAt(ok, refused != old(refused), old(told), told, old(ifaces), ifaces, d)
    }

    lemma InPlaceTold(refusal: bool, told0: seq<Option<string>>, told1: seq<Option<string>>, m0: map<int, Managed>,
                      d: Desired, next: Option<Managed>)
      requires AllConfigured(hex, listenFP, m0) && AllTold(told0, m0) && SameDevice(m0, d)
      requires next.Some? ==>
        && Configured(hex, listenFP, next.value) && next.value.inst == d.inst && next.value.opts == d.opts
        && next.value.flows == KeptFlows(m0[d.inst.id], d) && next.value.device == m0[d.inst.id].device
        && (NothingNew(m0[d.inst.id], d) ==> next.value.uapi == m0[d.inst.id].uapi)
      requires var n := m0[d.inst.id].device.number;
        told1 == if next.None? then (if refusal then told0[n := None] else told0)
          else if NothingNew(m0[d.inst.id], d) then told0 else told0[n := Some(next.value.uapi)]
      ensures var m1 := if next.None? then m0 else m0[d.inst.id := next.value];
        && AllConfigured(hex, listenFP, m1) && DeviceStep(next.Some?, m0, m1, d)
        && ToldAt(next.Some?, refusal, told0, told1, m0, m1, d)
        && (AllOwned(parse, hex, m0) && (next.Some? ==> FlowsOwned(parse, hex, next.value)) ==>
              AllOwned(parse, hex, m1))
    {
      if next.Some? {
        ReplacedKeeps(parse, hex, listenFP, m0, next.value,
                      AllOwned(parse, hex, m0) && FlowsOwned(parse, hex, next.value));
      }
    }

    lemma BuiltTold(refusal: bool, told0: seq<Option<string>>, told1: seq<Option<string>>, m0: map<int, Managed>,
                    d: Desired, next: Option<Managed>)
      requires AllConfigured(hex, listenFP, m0) && !SameDevice(m0, d) && told0 <= told1
      requires next.Some? ==>
        && Configured(hex, listenFP, next.value) && next.value.inst == d.inst && next.value.opts == d.opts
        && next.value.flows == {} && MadeFor(next.value.device, d)
        && next.value.device.number == |told0| && told1 == told0 + [Some(next.value.uapi)]
      ensures var m1 := if next.None? then m0 - {d.inst.id} else (m0 - {d.inst.id})[d.inst.id := next.value];
        && AllConfigured(hex, listenFP, m1) && DeviceStep(next.Some?, m0, m1, d)
        && ToldAt(next.Some?, refusal, told0, told1, m0, m1, d)
    {
      RemovedKeeps(parse, hex, listenFP, m0, {d.inst.id});
      MinusTwice(m0, {d.inst.id}, d.inst.id);
      if next.Some? {
        ReplacedKeeps(parse, hex, listenFP, m0 - {d.inst.id}, next.value, false);
      }
    }

    /** The device was built with these addresses, this MTU and this listen address. */
    predicate MadeFor(dev: Device, d: Desired) {
      && dev.address == d.inst.address && dev.listen == listenFP(d.inst.listen)
      && dev.mtu == EffectiveMTU(d.inst.mtu, d.inst.obfuscation.s4, DEFAULT_MTU)
    }

    /** The addresses before and now can be told apart in the fingerprint. */
    predicate Telling(m0: map<int, Managed>, d: Desired) {
      d.inst.id in m0 ==> Separable(d.inst.address) && Separable(m0[d.inst.id].device.address)
    }

    /** The interface is on a device made for its addresses, MTU and listen address, and that is the
        same device as before just when these are. */
    predicate OnFittingDevice(m0: map<int, Managed>, m1: map<int, Managed>, d: Desired) {
      && d.inst.id in m1 && MadeFor(m1[d.inst.id].device, d)
      && (d.inst.id in m0 ==>
            (m1[d.inst.id].device == m0[d.inst.id].device <==> MadeFor(m0[d.inst.id].device, d)))
    }

    /** A device is kept just when it was made for the wanted addresses, MTU and listen address. */
    lemma SameDeviceIff(m0: map<int, Managed>, d: Desired)
      requires AllConfigured(hex, listenFP, m0) && d.inst.id in m0 && Telling(m0, d)
      ensures SameDevice(m0, d) <==> MadeFor(m0[d.inst.id].device, d)
    {
      var dev := m0[d.inst.id].device;
      if SameDevice(m0, d) {
        PrintTells(dev.mtu, dev.address, dev.listen, EffectiveMTU(d.inst.mtu, d.inst.obfuscation.s4, DEFAULT_MTU),
                   d.inst.address, listenFP(d.inst.listen));
      }
    }

    lemma FitsAfter(ok: bool, told0: seq<Option<string>>, m0: map<int, Managed>, m1: map<int, Managed>, d: Desired)
      requires AllConfigured(hex, listenFP, m0) && AllTold(told0, m0) && DeviceStep(ok, m0, m1, d)
      requires ok && !SameDevice(m0, d) ==> m1[d.inst.id].device.number >= |told0|
      ensures ok && Telling(m0, d) ==> OnFittingDevice(m0, m1, d)
    {
      if ok && Telling(m0, d) && d.inst.id in m0 {
        SameDeviceIff(m0, d);
      }
    }

    /** ensureLocked. */
    method Ensure(d: Desired) returns (ok: bool)
      requires Valid()
      modifies this, aliases
      ensures Valid() && DeviceStep(ok, old(ifaces), ifaces, d) && Answered(ok, d) && ToldStep(ok, d)
      ensures ok && Telling(old(ifaces), d) ==> OnFittingDevice(old(ifaces), ifaces, d)
      ensures old(refused) == refused && old(AllInStep(told, ifaces)) ==> AllInStep(told, ifaces)
      ensures Plain(hex, d.inst, d.opts) && old(Owned()) ==> Owned()
      ensures Unchanged(old(ifaces), d) ==> ok
      ensures SameDevice(old(ifaces), d) ==>
        ipcSets == if Accepted(d) && !Unchanged(old(ifaces), d) then old(ipcSets) + [d.inst.id] else old(ipcSets)
      ensures ok && !Unchanged(old(ifaces), d) ==> ipcSets == old(ipcSets) + [d.inst.id]
      ensures failedRebuilds == old(failedRebuilds) +
        if !ok && d.inst.id in old(ifaces) && !SameDevice(old(ifaces), d) then 1 else 0
      ensures Spares(old(aliases.Now()), aliases.Now()) && (aliases.clean ==> old(aliases.clean))
      ensures Touches(old(aliases.Now()), aliases.Now(), Moves(old(ifaces), d))
      ensures !ok || WantedAt(first, old(ifaces), d.inst.id) == DesiredAliases(first, d.inst) ==>
        aliases.Now() == old(aliases.Now())
      ensures ok ==> Settled(aliases.clean, old(aliases.Now()), aliases.Now(),
                             WantedAt(first, old(ifaces), d.inst.id), DesiredAliases(first, d.inst))
      ensures old(Tidy()) ==> (Tidy() <==>
        ok || SameDevice(old(ifaces), d) || !SolelyWanted(first, old(aliases.owned), old(ifaces), d.inst.id))
    {
      ghost var m0, owned0 := ifaces, aliases.owned;
      var before := WantedAt(first, ifaces, d.inst.id);
      ok := EnsureDevice(d);
      if ok {
        MoveAliases(before, DesiredAliases(first, d.inst));
        MovedTidy(first, owned0, aliases.owned, m0, ifaces, d.inst.id);
      } else {
        DroppedTidy(first, owned0, m0, d.inst.id);
      }
    }

    /** The device half: nothing to do, a new configuration, or a new device. */
    method EnsureDevice(d: Desired) returns (ok: bool)
      requires AllConfigured(hex, listenFP, ifaces) && AllTold(told, ifaces)
      modifies this
      ensures AllConfigured(hex, listenFP, ifaces) && DeviceStep(ok, old(ifaces), ifaces, d)
      ensures Answered(ok, d) && ToldStep(ok, d) && AllTold(told, ifaces)
      ensures ok && Telling(old(ifaces), d) ==> OnFittingDevice(old(ifaces), ifaces, d)
      ensures old(refused) == refused && old(AllInStep(told, ifaces)) ==> AllInStep(told, ifaces)
      ensures Plain(hex, d.inst, d.opts) && old(Owned()) ==> Owned()
      ensures Unchanged(old(ifaces), d) ==> ok
      ensures SameDevice(old(ifaces), d) ==>
        ipcSets == if Accepted(d) && !Unchanged(old(ifaces), d) then old(ipcSets) + [d.inst.id] else old(ipcSets)
      ensures ok && !Unchanged(old(ifaces), d) ==> ipcSets == old(ipcSets) + [d.inst.id]
      ensures failedRebuilds == old(failedRebuilds) +
        if !ok && d.inst.id in old(ifaces) && !SameDevice(old(ifaces), d) then 1 else 0
    {
      ghost var known, m0, told0 := d.inst.id in ifaces, ifaces, told;
      var structFP := AddressFingerprint(listenFP, d.inst);
      if d.inst.id in ifaces && ifaces[d.inst.id].structFP == structFP {
        ok := EnsureInPlace(d);
      } else {
        ok := EnsureBuilt(d);
        failedRebuilds := failedRebuilds + if !ok && known then 1 else 0;
      }
      FitsAfter(ok, told0, m0, ifaces, d);
      ToldKept(told0, told, m0, ifaces, d.inst.id);
    }

    /** The inbound is up on a device that need not be built anew. */
    predicate SameDevice(m0: map<int, Managed>, d: Desired) {
      d.inst.id in m0 && m0[d.inst.id].structFP == AddressFingerprint(listenFP, d.inst)
    }

    /** What an Ensure does to the managed interfaces. */
    predicate DeviceStep(ok: bool, m0: map<int, Managed>, m1: map<int, Managed>, d: Desired) {
      && m1 - {d.inst.id} == m0 - {d.inst.id}
      && (ok ==>
            && d.inst.id in m1 && m1[d.inst.id].inst == d.inst && m1[d.inst.id].opts == d.opts
            && m1[d.inst.id].flows == (if SameDevice(m0, d) then KeptFlows(m0[d.inst.id], d) else {})
            && (if SameDevice(m0, d) then m1[d.inst.id].device == m0[d.inst.id].device
                else MadeFor(m1[d.inst.id].device, d)))
      && (!ok ==> m1 == if SameDevice(m0, d) then m0 else m0 - {d.inst.id})
    }

    /** The rendered text is what the device already has. */
    predicate NothingNew(cur: Managed, d: Desired) { Config(hex, d.inst, d.opts) == Ok(cur.uapi) }

    /** The flows an interface keeps when it stays up: all of them when nothing is new,
        otherwise just those whose owner is the same. */
    function KeptFlows(cur: Managed, d: Desired): set<Flow> {
      if NothingNew(cur, d) then cur.flows else Surviving(parse, cur.flows, cur.inst.peers, d.inst.peers)
    }

    method EnsureInPlace(d: Desired) returns (ok: bool)
      requires AllConfigured(hex, listenFP, ifaces) && SameDevice(ifaces, d) && AllTold(told, ifaces)
      modifies `ifaces, `ipcSets, `refused, `told
      ensures AllConfigured(hex, listenFP, ifaces) && DeviceStep(ok, old(ifaces), ifaces, d)
      ensures Answered(ok, d) && ToldStep(ok, d)
      ensures Plain(hex, d.inst, d.opts) && old(Owned()) ==> Owned()
      ensures NothingNew(old(ifaces)[d.inst.id], d) ==> ok
      ensures ipcSets ==
        if Accepted(d) && !NothingNew(old(ifaces)[d.inst.id], d) then old(ipcSets) + [d.inst.id] else old(ipcSets)
    {
      ghost var m0, told0, calls := ifaces, told, refused;
      var cur := ifaces[d.inst.id];
      var next := Renew(cur, d);
      InPlaceTold(refused != calls, told0, told, m0, d, next);
      if next.None? {
        return false;
      }
      ifaces := ifaces[d.inst.id := next.value];
      ok := true;
    }

    /** The new state of an interface whose device stays. */
    method Renew(cur: Managed, d: Desired) returns (next: Option<Managed>)
      requires Configured(hex, listenFP, cur) && cur.structFP == AddressFingerprint(listenFP, d.inst)
      requires Told(told, cur)
      modifies `ipcSets, `refused, `told
      ensures Answered(next.Some?, d)
      ensures next.Some? ==>
        told == if NothingNew(cur, d) then old(told) else old(told)[cur.device.number := Some(next.value.uapi)]
      ensures next.None? ==>
        told == if refused == old(refused) then old(told) else old(told)[cur.device.number := None]
      ensures next.Some? ==>
        var m := next.value;
        && Configured(hex, listenFP, m) && m.inst == d.inst && m.opts == d.opts && m.flows == KeptFlows(cur, d)
        && m.device == cur.device && (NothingNew(cur, d) ==> m.uapi == cur.uapi)
        && (FlowsOwned(parse, hex, cur) && Plain(hex, d.inst, d.opts) ==> FlowsOwned(parse, hex, m))
      ensures NothingNew(cur, d) ==> next.Some?
      ensures ipcSets == if Accepted(d) && !NothingNew(cur, d) then old(ipcSets) + [d.inst.id] else old(ipcSets)
    {
      var conf := BuildUAPIConfig(hex, d.inst, d.opts);
      if conf.Err? {
        return None;
      }
      if conf.value == cur.uapi {
        next := Some(cur.(inst := d.inst, opts := d.opts));
        if FlowsOwned(parse, hex, cur) && Plain(hex, d.inst, d.opts) {
          UnchangedOwned(parse, hex, listenFP, cur, d.inst, d.opts);
        }
        return;
      }
      var ok := IpcSet(d.inst.id, cur.device.number, conf.value);
      if !ok {
        return None;
      }
      var flows := DropReassignedFlows(cur.flows, cur.inst.peers, d.inst.peers);
      next := Some(Managed(cur.structFP, d.inst, d.opts, conf.value, flows, cur.device));
      if FlowsOwned(parse, hex, cur) {
        SurvivorsOwned(parse, hex, cur.flows, cur.inst.peers, d.inst.peers);
      }
    }

    /** IpcSet on an interface's device: it may fail, with part of the text applied. */
    method IpcSet(id: int, number: nat, conf: string) returns (ok: bool)
      requires number < |told|
      modifies `ipcSets, `refused, `told
      ensures ipcSets == old(ipcSets) + [id] && refused == if ok then old(refused) else old(refused) + [id]
      ensures told == old(told)[number := if ok then Some(conf) else None]
    {
      ipcSets := ipcSets + [id];
      ok := DeviceCall(id);
      told := told[number := if ok then Some(conf) else None];
    }

    /** Any other call that makes a device or brings it up: it may fail, too. */
    method DeviceCall(id: int) returns (ok: bool)
      modifies `refused
      ensures refused == if ok then old(refused) else old(refused) + [id]
    {
      ok := *;
      refused := if ok then refused else refused + [id];
    }

    /** Aborts the flows of every address its peer has lost. */
    method DropReassignedFlows(flows: set<Flow>, before: seq<Peer>, now: seq<Peer>) returns (left: set<Flow>)
      ensures left == Surviving(parse, flows, before, now)
    {
      var was := NewPeerIndex(parse, before);
      var present := NewPeerIndex(parse, now);
      left := flows;
      var todo := flows;
      while todo != {}
        invariant todo <= flows && left == Surviving(parse, flows - todo, before, now) + todo
        decreases todo
      {
        var f := AnyOf(todo);
        var lost := LostBy(was, present, f.src);
        if lost {
          left := left - {f};
        }
        DroppedOne(parse, flows, todo, f, before, now);
        todo := todo - {f};
      }
      assert flows - todo == flows;
    }

    method LostBy(was: seq<Entry>, present: seq<Entry>, a: Addr) returns (lost: bool)
      ensures lost == (Longest(Table(was), a, |a.bits|).Some? &&
        (Longest(Table(present), a, |a.bits|).None? ||
         Longest(Table(present), a, |a.bits|).value.publicKey != Longest(Table(was), a, |a.bits|).value.publicKey))
    {
      var w := Lookup(was, a);
      if w.None? {
        return false;
      }
      var p := Lookup(present, a);
      lost := p.None? || p.value.publicKey != w.value.publicKey;
    }

    method EnsureBuilt(d: Desired) returns (ok: bool)
      requires AllConfigured(hex, listenFP, ifaces) && !SameDevice(ifaces, d)
      modifies `ifaces, `ipcSets, `refused, `told
      ensures AllConfigured(hex, listenFP, ifaces) && DeviceStep(ok, old(ifaces), ifaces, d)
      ensures Answered(ok, d) && ToldStep(ok, d) && (ok ==> ifaces[d.inst.id].device.number >= |old(told)|)
      ensures ok ==> ipcSets == old(ipcSets) + [d.inst.id]
      ensures Plain(hex, d.inst, d.opts) && old(Owned()) ==> Owned()
    {
      ghost var m0, told0, calls := ifaces, told, refused;
      RemovedKeeps(parse, hex, listenFP, ifaces, {d.inst.id});
      ifaces := ifaces - {d.inst.id};
      var next := BuildDevice(d);
      BuiltTold(refused != calls, told0, told, m0, d, next);
      if next.None? {
        return false;
      }
      ReplacedKeeps(parse, hex, listenFP, ifaces, next.value, old(Owned()) && Plain(hex, d.inst, d.opts));
      ifaces := ifaces[d.inst.id := next.value];
      ok := true;
    }

    /** A new device, configured and up, with no flow yet. */
    method BuildDevice(d: Desired) returns (next: Option<Managed>)
      modifies `ipcSets, `refused, `told
      ensures Answered(next.Some?, d) && old(told) <= told
      ensures next.Some? ==>
        var m := next.value;
        && MadeFor(m.device, d) && m.device.number == |old(told)| && told == old(told) + [Some(m.uapi)]
        && ipcSets == old(ipcSets) + [d.inst.id]
        && Configured(hex, listenFP, m) && m.inst == d.inst && m.opts == d.opts && m.flows == {}
        && (Plain(hex, d.inst, d.opts) ==> FlowsOwned(parse, hex, m))
    {
      var built := DeviceCall(d.inst.id);
      if !built {
        return None;
      }
      var dev := Device(|told|, d.inst.address, EffectiveMTU(d.inst.mtu, d.inst.obfuscation.s4, DEFAULT_MTU),
                        listenFP(d.inst.listen));
      told := told + [None];
      var conf := BuildUAPIConfig(hex, d.inst, d.opts);
      if conf.Err? {
        return None;
      }
      var applied := IpcSet(d.inst.id, dev.number, conf.value);
      if !applied {
        return None;
      }
      var up := DeviceCall(d.inst.id);
      if !up {
        return None;
      }
      next := Some(Managed(AddressFingerprint(listenFP, d.inst), d.inst, d.opts, conf.value, {}, dev));
    }

    /** Remove, and what Reconcile and StopAll do to each interface that goes. */
    method Remove(id: int)
      requires Valid()
      modifies `ifaces, aliases
      ensures Valid() && ifaces == old(ifaces) - {id} && Kept(true, old(Here()), Here())
      ensures Touches(old(aliases.Now()), aliases.Now(), MovedBetween(WantedAt(first, old(ifaces), id), map[]))
      ensures Settled(aliases.clean, old(aliases.Now()), aliases.Now(), WantedAt(first, old(ifaces), id), map[])
    {
      ghost var before := Here();
      if id !in ifaces {
        KeptSame(true, before);
        SettledAlready(aliases.clean, aliases.Now());
        NotThere(ifaces, id);
        return;
      }
      TakeDown(id);
      StepKept(true, before, Here());
    }

    method TakeDown(id: int)
      requires Valid() && id in ifaces
      modifies `ifaces, aliases
      ensures Valid() && (old(Owned()) ==> Owned()) && ifaces == old(ifaces) - {id}
      ensures Spares(old(aliases.Now()), aliases.Now()) && (old(Tidy()) ==> Tidy())
      ensures Touches(old(aliases.Now()), aliases.Now(), MovedBetween(WantedAt(first, old(ifaces), id), map[]))
      ensures Settled(aliases.clean, old(aliases.Now()), aliases.Now(), WantedAt(first, old(ifaces), id), map[])
      ensures (aliases.clean ==> old(aliases.clean)) && (old(AllInStep(told, ifaces)) ==> AllInStep(told, ifaces))
    {
      ghost var owned0 := aliases.owned;
      MoveAliases(DesiredAliases(first, ifaces[id].inst), map[]);
      GivenUp(owned0, aliases.owned, DesiredAliases(first, ifaces[id].inst));
      Forget(id, owned0);
    }

    /** An interface whose aliases have been taken off the host leaves the map. */
    method Forget(id: int, ghost owned0: set<Alias>)
      requires Valid() && aliases.owned <= owned0 && aliases.owned !! MovedAliases(WantedAt(first, ifaces, id), map[])
      modifies `ifaces
      ensures Valid() && ifaces == old(ifaces) - {id} && (old(Owned()) ==> Owned())
      ensures NoOrphans(first, owned0, old(ifaces)) ==> Tidy()
      ensures old(AllInStep(told, ifaces)) ==> AllInStep(told, ifaces)
    {
      TakenDown(parse, hex, listenFP, first, told, owned0, aliases.owned, ifaces, id);
      ifaces := ifaces - {id};
    }

    /** The aliases the commands for some removed interfaces may be about. */
    function GoneMoves(m0: map<int, Managed>, ids: set<int>): set<Alias> {
      set id, x | id in ids && x in MovedBetween(WantedAt(first, m0, id), map[]) :: x
    }

    /** Some interfaces removed. */
    ghost predicate Swept(a: Standing, b: Standing, ids: set<int>) {
      && (forall plain :: Kept(plain, a, b))
      && b.ifaces == a.ifaces - ids && b.refused == a.refused && b.sets == a.sets
      && Touches(a.aliases, b.aliases, GoneMoves(a.ifaces, ids))
      && (b.clean ==> Withdrawn(a.aliases, b.aliases))
    }

    lemma SweptNone(a: Standing, ids: set<int>)
      ensures Swept(a, a, ids - ids)
    {
      forall plain { KeptSame(plain, a); }
      assert ids - ids == {} && a.ifaces - {} == a.ifaces;
    }

    lemma SweptNext(a: Standing, b: Standing, c: Standing, ids: set<int>, id: int)
      requires Swept(a, b, ids) && id !in ids && Kept(true, b, c) && c.ifaces == b.ifaces - {id}
      requires c.refused == b.refused && c.sets == b.sets
      requires Touches(b.aliases, c.aliases, MovedBetween(WantedAt(first, b.ifaces, id), map[]))
      requires Settled(c.clean, b.aliases, c.aliases, WantedAt(first, b.ifaces, id), map[])
      ensures Swept(a, c, ids + {id})
    {
      forall plain ensures Kept(plain, a, c) {
        KeptTwice(plain, a, b, c);
      }
      MinusTwice(a.ifaces, ids, id);
      assert WantedAt(first, b.ifaces, id) == WantedAt(first, a.ifaces, id);
      var more := MovedBetween(WantedAt(first, a.ifaces, id), map[]);
      TouchesTwice(a.aliases, b.aliases, c.aliases, GoneMoves(a.ifaces, ids), more);
      assert GoneMoves(a.ifaces, ids + {id}) == GoneMoves(a.ifaces, ids) + more;
      SettledWithdrawn(c.clean, b.aliases, c.aliases, WantedAt(first, b.ifaces, id));
    }

    lemma SweptMore(a: Standing, b: Standing, c: Standing, ids: set<int>, todo: set<int>, id: int)
      requires Swept(a, b, ids - todo) && id in todo && todo <= ids && Kept(true, b, c)
      requires c.ifaces == b.ifaces - {id} && c.refused == b.refused && c.sets == b.sets
      requires Touches(b.aliases, c.aliases, MovedBetween(WantedAt(first, b.ifaces, id), map[]))
      requires Settled(c.clean, b.aliases, c.aliases, WantedAt(first, b.ifaces, id), map[])
      ensures Swept(a, c, ids - (todo - {id}))
    {
      SweptNext(a, b, c, ids - todo, id);
      assert ids - (todo - {id}) == ids - todo + {id};
    }

    /** Where every alias is wanted by an interface that is up, none is answered for afterwards, and
        without failures all of them are off the host. */
    method StopAll()
      requires Valid()
      modifies `ifaces, aliases
      ensures Valid() && Owned() && ifaces == map[] && Kept(true, old(Here()), Here())
      ensures Touches(old(aliases.Now()), aliases.Now(), GoneMoves(old(ifaces), old(ifaces).Keys))
      ensures old(Tidy()) ==> aliases.owned == {}
      ensures aliases.clean && old(Tidy()) ==> aliases.host == old(aliases.host) - old(aliases.owned)
    {
      RemoveEach(ifaces.Keys);
      NothingWanted(first, aliases.owned);
    }

    method RemoveNext(ids: set<int>, todo: set<int>, id: int, ghost start: Standing)
      returns (left: set<int>, ghost now: Standing)
      requires Valid() && id in todo && todo <= ids && Swept(start, Here(), ids - todo)
      modifies `ifaces, aliases
      ensures left == todo - {id} && left <= ids && Valid() && now == Here() && Swept(start, now, ids - left)
    {
      ghost var before := Here();
      Remove(id);
      now, left := Here(), todo - {id};
      SweptMore(start, before, now, ids, todo, id);
    }

    method RemoveEach(ids: set<int>)
      requires Valid()
      modifies `ifaces, aliases
      ensures Valid() && Swept(old(Here()), Here(), ids)
    {
      var todo := ids;
      ghost var start := Here();
      ghost var now := start;
      SweptNone(start, ids);
      while todo != {}
        invariant Valid() && now == Here() && todo <= ids && Swept(start, now, ids - todo)
        decreases todo
      {
        var id := AnyOf(todo);
        todo, now := RemoveNext(ids, todo, id, start);
      }
      NothingLeft(ids, todo);
    }

    // -------------------------------------------------------------------------
    // Whole sets of inbounds
    // -------------------------------------------------------------------------

    /** The device stays and has the rendered text already. */
    predicate Unchanged(m0: map<int, Managed>, d: Desired) { SameDevice(m0, d) && NothingNew(m0[d.inst.id], d) }

    /** The aliases an Ensure of d may issue commands about: those it gives up and newly wants. */
    function Moves(m0: map<int, Managed>, d: Desired): set<Alias> {
      MovedBetween(WantedAt(first, m0, d.inst.id), DesiredAliases(first, d.inst))
    }

    function AllMoves(m0: map<int, Managed>, ds: seq<Desired>): set<Alias> {
      set d, x | d in ds && x in Moves(m0, d) :: x
    }

    function ChangedIds(m0: map<int, Managed>, ds: seq<Desired>): set<int> {
      set d | d in ds && !Unchanged(m0, d) :: d.inst.id
    }

    /** An interface whose device stays keeps its flows, but for those of reassigned addresses; a new
        device has none. */
    predicate DeviceAt(m0: map<int, Managed>, m1: map<int, Managed>, d: Desired) {
      var id := d.inst.id;
      if SameDevice(m0, d) then
        && id in m1 && m1[id].device == m0[id].device
        && (m1[id] == m0[id] || (m1[id].inst == d.inst && m1[id].flows == KeptFlows(m0[id], d)))
      else id in m1 ==> m1[id].inst == d.inst && m1[id].flows == {} && MadeFor(m1[id].device, d)
    }

    predicate AllDevicesAt(m0: map<int, Managed>, m1: map<int, Managed>, ds: seq<Desired>) {
      forall d :: d in ds ==> DeviceAt(m0, m1, d)
    }

    /** One inbound was ensured. */
    ghost predicate BroughtOne(a: Standing, b: Standing, more: seq<int>, d: Desired) {
      && b.ifaces - {d.inst.id} == a.ifaces - {d.inst.id} && DeviceAt(a.ifaces, b.ifaces, d)
      && b.refused == a.refused + more && UpOrRefused(hex, b.ifaces, more, d)
      && (b.sets == a.sets || (b.sets == a.sets + [d.inst.id] && !Unchanged(a.ifaces, d)))
      && Touches(a.aliases, b.aliases, Moves(a.ifaces, d))
    }

    /** These inbounds were: each is up, or could not be brought up; flows, device configurations and
        alias commands are those of the inbounds that changed. */
    ghost predicate Done(a: Standing, b: Standing, news: seq<int>, done: seq<Desired>) {
      && AllUp(hex, b.ifaces, news, done) && b.ifaces - Ids(done) == a.ifaces - Ids(done)
      && AllDevicesAt(a.ifaces, b.ifaces, done)
      && OnlySet(a.sets, b.sets, ChangedIds(a.ifaces, done))
      && Touches(a.aliases, b.aliases, AllMoves(a.ifaces, done))
    }

    lemma DeviceStays(m0: map<int, Managed>, m1: map<int, Managed>, m2: map<int, Managed>, d: Desired)
      requires DeviceAt(m0, m1, d) && SameEntry(m1, m2, d.inst.id)
      ensures DeviceAt(m0, m2, d)
    {
    }

    lemma DeviceSince(m0: map<int, Managed>, m1: map<int, Managed>, m2: map<int, Managed>, d: Desired)
      requires SameEntry(m0, m1, d.inst.id) && DeviceAt(m1, m2, d)
      ensures DeviceAt(m0, m2, d)
    {
    }

    lemma SameBefore(m0: map<int, Managed>, m1: map<int, Managed>, d: Desired)
      requires SameEntry(m0, m1, d.inst.id)
      ensures Moves(m0, d) == Moves(m1, d) && Unchanged(m0, d) == Unchanged(m1, d)
    {
    }

    lemma DevicesNext(m0: map<int, Managed>, m1: map<int, Managed>, m2: map<int, Managed>, done: seq<Desired>,
                      d: Desired)
      requires AllDevicesAt(m0, m1, done) && DeviceAt(m1, m2, d) && m2 - {d.inst.id} == m1 - {d.inst.id}
      requires m1 - Ids(done) == m0 - Ids(done) && forall e :: e in done ==> e.inst.id != d.inst.id
      ensures AllDevicesAt(m0, m2, done + [d]) && SameEntry(m0, m1, d.inst.id)
    {
      forall e | e in done ensures DeviceAt(m0, m2, e) {
        EntryOutside(m1, m2, {d.inst.id}, e.inst.id);
        DeviceStays(m0, m1, m2, e);
      }
      EntryOutside(m0, m1, Ids(done), d.inst.id);
      DeviceSince(m0, m1, m2, d);
    }

    lemma MovesNext(m0: map<int, Managed>, done: seq<Desired>, d: Desired)
      ensures AllMoves(m0, done + [d]) == AllMoves(m0, done) + Moves(m0, d)
      ensures ChangedIds(m0, done + [d]) == ChangedIds(m0, done) + if Unchanged(m0, d) then {} else {d.inst.id}
      ensures Ids(done + [d]) == Ids(done) + {d.inst.id}
    {
      assert forall e :: e in done + [d] <==> e in done || e == d;
    }

    lemma DoneNext(a: Standing, b: Standing, c: Standing, news: seq<int>, more: seq<int>, done: seq<Desired>,
                   d: Desired)
      requires Done(a, b, news, done) && BroughtOne(b, c, more, d) && forall e :: e in done ==> e.inst.id != d.inst.id
      ensures Done(a, c, news + more, done + [d])
    {
      AllUpNext(hex, b.ifaces, c.ifaces, news, more, done, d);
      DevicesNext(a.ifaces, b.ifaces, c.ifaces, done, d);
      SameBefore(a.ifaces, b.ifaces, d);
      MovesNext(a.ifaces, done, d);
      FrameNext(a.ifaces, b.ifaces, c.ifaces, Ids(done), d.inst.id);
      OnlySetNext(a.sets, b.sets, c.sets, ChangedIds(a.ifaces, done), d.inst.id);
      TouchesTwice(a.aliases, b.aliases, c.aliases, AllMoves(a.ifaces, done), Moves(a.ifaces, d));
    }

    /** The first inbounds were ensured. */
    ghost predicate Brought(a: Standing, b: Standing, news: seq<int>, ds: seq<Desired>, done: seq<Desired>) {
      && done <= ds && b.ifaces.Keys <= Ids(ds) && b.refused == a.refused + news
      && (Distinct(ds) ==> Done(a, b, news, done))
    }

    lemma BroughtNone(a: Standing, ds: seq<Desired>)
      requires a.ifaces.Keys <= Ids(ds)
      ensures Brought(a, a, [], ds, [])
    {
      assert a.refused + [] == a.refused;
      assert a.aliases.log[|a.aliases.log|..] == [];
    }

    lemma BroughtNext(a: Standing, b: Standing, c: Standing, news: seq<int>, more: seq<int>, ds: seq<Desired>,
                      done: seq<Desired>)
      requires Brought(a, b, news, ds, done) && |done| < |ds| && BroughtOne(b, c, more, ds[|done|])
      ensures Brought(a, c, news + more, ds, done + [ds[|done|]])
    {
      var d := ds[|done|];
      KeysAfter(b.ifaces, c.ifaces, d.inst.id);
      assert d in ds;
      assert a.refused + news + more == a.refused + (news + more);
      if Distinct(ds) {
        assert forall e :: e in done ==> e.inst.id != d.inst.id;
        DoneNext(a, b, c, news, more, done, d);
      }
    }

    /** What a Reconcile of distinct inbounds comes to. */
    ghost predicate Reconciled(a: Standing, b: Standing, news: seq<int>, ds: seq<Desired>) {
      && AllUp(hex, b.ifaces, news, ds) && AllDevicesAt(a.ifaces, b.ifaces, ds)
      && OnlySet(a.sets, b.sets, ChangedIds(a.ifaces, ds))
      && Touches(a.aliases, b.aliases, AllMoves(a.ifaces, ds) + GoneMoves(a.ifaces, a.ifaces.Keys - Ids(ds)))
    }

    lemma SweptThenDone(a: Standing, b: Standing, c: Standing, news: seq<int>, ds: seq<Desired>)
      requires Swept(a, b, a.ifaces.Keys - Ids(ds)) && Done(b, c, news, ds)
      ensures Reconciled(a, c, news, ds)
    {
      var gone := a.ifaces.Keys - Ids(ds);
      forall d | d in ds ensures DeviceAt(a.ifaces, c.ifaces, d) && Moves(b.ifaces, d) == Moves(a.ifaces, d)
          && Unchanged(b.ifaces, d) == Unchanged(a.ifaces, d) {
        assert d.inst.id in Ids(ds);
        EntryOutside(a.ifaces, b.ifaces, gone, d.inst.id);
        DeviceSince(a.ifaces, b.ifaces, c.ifaces, d);
        SameBefore(a.ifaces, b.ifaces, d);
      }
      assert AllMoves(b.ifaces, ds) == AllMoves(a.ifaces, ds);
      assert ChangedIds(b.ifaces, ds) == ChangedIds(a.ifaces, ds);
      TouchesTwice(a.aliases, b.aliases, c.aliases, GoneMoves(a.ifaces, gone), AllMoves(a.ifaces, ds));
      assert GoneMoves(a.ifaces, gone) + AllMoves(a.ifaces, ds) == AllMoves(a.ifaces, ds) + GoneMoves(a.ifaces, gone);
    }

    /** Nobody's wishes changed, and no interface with wishes is to go. */
    predicate AllContent(m0: map<int, Managed>, ds: seq<Desired>) {
      && (forall d :: d in ds ==> WantedAt(first, m0, d.inst.id) == DesiredAliases(first, d.inst))
      && (forall id :: id in m0.Keys - Ids(ds) ==> WantedAt(first, m0, id) == map[])
    }

    predicate AllUnchanged(m0: map<int, Managed>, ds: seq<Desired>) { forall d :: d in ds ==> Unchanged(m0, d) }

    predicate SameFlows(m0: map<int, Managed>, m1: map<int, Managed>, ds: seq<Desired>) {
      forall d :: d in ds && d.inst.id in m0 ==> d.inst.id in m1 && m1[d.inst.id].flows == m0[d.inst.id].flows
    }

    lemma NothingToDo(a: Standing, b: Standing, news: seq<int>, ds: seq<Desired>)
      requires Reconciled(a, b, news, ds)
      ensures AllContent(a.ifaces, ds) ==> b.aliases == a.aliases
      ensures AllUnchanged(a.ifaces, ds) ==> b.sets == a.sets && SameFlows(a.ifaces, b.ifaces, ds)
    {
      if AllContent(a.ifaces, ds) {
        assert AllMoves(a.ifaces, ds) + GoneMoves(a.ifaces, a.ifaces.Keys - Ids(ds)) == {};
        TouchesNothing(a.aliases, b.aliases);
      }
      if AllUnchanged(a.ifaces, ds) {
        assert ChangedIds(a.ifaces, ds) == {};
        SomethingSet(a.sets, b.sets, {});
      }
    }

    /** The undesired go, then each wanted inbound is ensured: it is up with its settings, or these
        cannot be rendered, or a device call for it was refused in this very call. Only changed
        inbounds cost flows, device configurations or alias commands. */
    method Reconcile(desired: seq<Desired>) returns (ghost news: seq<int>)
      requires Valid()
      modifies this, aliases
      ensures Valid() && ifaces.Keys <= Ids(desired) && Kept(AllPlain(hex, desired), old(Here()), Here())
      ensures refused == old(refused) + news
      ensures Distinct(desired) ==> Reconciled(old(Here()), Here(), news, desired)
      ensures Distinct(desired) && AllContent(old(ifaces), desired) ==> aliases.Now() == old(aliases.Now())
      ensures Distinct(desired) && AllUnchanged(old(ifaces), desired) ==>
        ipcSets == old(ipcSets) && SameFlows(old(ifaces), ifaces, desired)
    {
      ghost var start := Here();
      RemoveEach(ifaces.Keys - Ids(desired));
      ghost var mid := Here();
      news := EnsureEach(desired);
      KeptTwice(AllPlain(hex, desired), start, mid, Here());
      if Distinct(desired) {
        SweptThenDone(start, mid, Here(), news, desired);
        NothingToDo(start, Here(), news, desired);
      }
    }

    method EnsureEach(desired: seq<Desired>) returns (ghost news: seq<int>)
      requires Valid() && ifaces.Keys <= Ids(desired)
      modifies this, aliases
      ensures Valid() && Kept(AllPlain(hex, desired), old(Here()), Here())
      ensures Brought(old(Here()), Here(), news, desired, desired)
    {
      ghost var start, done: seq<Desired> := Here(), [];
      ghost var now := start;
      news := [];
      BroughtNone(start, desired);
      KeptSame(AllPlain(hex, desired), start);
      for k := 0 to |desired|
        invariant Valid() && now == Here() && Kept(AllPlain(hex, desired), start, now)
        invariant |done| == k && Brought(start, now, news, desired, done)
      {
        now, news, done := EnsureAt(desired, k, start, news, done);
      }
      assert done == desired;
    }

    method EnsureAt(desired: seq<Desired>, k: nat, ghost start: Standing, ghost news: seq<int>,
                    ghost done: seq<Desired>)
      returns (ghost now: Standing, ghost news': seq<int>, ghost done': seq<Desired>)
      requires Valid() && k < |desired| && Kept(AllPlain(hex, desired), start, Here())
      requires |done| == k && Brought(start, Here(), news, desired, done)
      modifies this, aliases
      ensures Valid() && now == Here() && Kept(AllPlain(hex, desired), start, now)
      ensures |done'| == k + 1 && Brought(start, now, news', desired, done')
    {
      ghost var before := Here();
      ghost var more := EnsureNext(desired, k);
      now := Here();
      KeptTwice(AllPlain(hex, desired), start, before, now);
      BroughtNext(start, before, now, news, more, desired, done);
      news', done' := news + more, done + [desired[k]];
    }

    /** An Ensure as one step of a run. */
    method EnsureStep(d: Desired) returns (ghost more: seq<int>)
      requires Valid()
      modifies this, aliases
      ensures Valid() && Kept(Plain(hex, d.inst, d.opts), old(Here()), Here())
      ensures BroughtOne(old(Here()), Here(), more, d)
    {
      ghost var before := Here();
      more := EnsureTidy(d);
      StepKept(Plain(hex, d.inst, d.opts), before, Here());
    }

    method EnsureTidy(d: Desired) returns (ghost more: seq<int>)
      requires Valid()
      modifies this, aliases
      ensures Valid() && ifaces - {d.inst.id} == old(ifaces) - {d.inst.id} && Spares(old(aliases.Now()), aliases.Now())
      ensures refused == old(refused) + more && UpOrRefused(hex, ifaces, more, d)
      ensures DeviceAt(old(ifaces), ifaces, d) && Touches(old(aliases.Now()), aliases.Now(), Moves(old(ifaces), d))
      ensures ipcSets == old(ipcSets) || (ipcSets == old(ipcSets) + [d.inst.id] && !Unchanged(old(ifaces), d))
      ensures Plain(hex, d.inst, d.opts) && old(Owned()) ==> Owned()
      ensures old(failedRebuilds) <= failedRebuilds && (aliases.clean ==> old(aliases.clean))
      ensures old(Tidy()) && failedRebuilds == old(failedRebuilds) ==> Tidy()
      ensures old(AllInStep(told, ifaces)) && refused == old(refused) ==> AllInStep(told, ifaces)
    {
      ghost var m0, owned0, calls := ifaces, aliases.owned, refused;
      var ok := Ensure(d);
      more := if refused == calls then [] else [d.inst.id];
      if d.inst.id !in m0 {
        UnknownWantsNothing(first, owned0, m0, d.inst.id);
      }
    }

    method EnsureNext(desired: seq<Desired>, k: nat) returns (ghost more: seq<int>)
      requires Valid() && k < |desired|
      modifies this, aliases
      ensures Valid() && Kept(AllPlain(hex, desired), old(Here()), Here())
      ensures BroughtOne(old(Here()), Here(), more, desired[k])
    {
      more := EnsureStep(desired[k]);
    }
  }

  lemma NothingWanted(first: FirstV6, owned: set<Alias>)
    ensures NoOrphans(first, owned, map[]) ==> owned == {}
  {
    assert forall a :: !WantedIn(first, map[], a);
  }

  function Ids(desired: seq<Desired>): set<int> { set d | d in desired :: d.inst.id }

  predicate AllPlain(hex: Hex, desired: seq<Desired>) { forall d :: d in desired ==> Plain(hex, d.inst, d.opts) }

  predicate Distinct(desired: seq<Desired>) {
    forall i, j :: 0 <= i < j < |desired| ==> desired[i].inst.id != desired[j].inst.id
  }

  predicate UpOrRefused(hex: Hex, ifaces: map<int, Managed>, news: seq<int>, d: Desired) {
    || (d.inst.id in ifaces && ifaces[d.inst.id].inst == d.inst && ifaces[d.inst.id].opts == d.opts)
    || Config(hex, d.inst, d.opts).Err? || d.inst.id in news
  }

  predicate AllUp(hex: Hex, ifaces: map<int, Managed>, news: seq<int>, ds: seq<Desired>) {
    forall d :: d in ds ==> UpOrRefused(hex, ifaces, news, d)
  }

  lemma UpStays(hex: Hex, m0: map<int, Managed>, m1: map<int, Managed>, news: seq<int>, more: seq<int>, d: Desired,
                id: int)
    requires m1 - {id} == m0 - {id} && d.inst.id != id && UpOrRefused(hex, m0, news, d)
    ensures UpOrRefused(hex, m1, news + more, d)
  {
    if d.inst.id in m0 {
      assert d.inst.id in m0 - {id} && (m1 - {id})[d.inst.id] == m0[d.inst.id];
    }
  }

  lemma AllUpNext(hex: Hex, m0: map<int, Managed>, m1: map<int, Managed>, news: seq<int>, more: seq<int>,
                  done: seq<Desired>, d: Desired)
    requires AllUp(hex, m0, news, done) && UpOrRefused(hex, m1, more, d) && m1 - {d.inst.id} == m0 - {d.inst.id}
    requires forall e :: e in done ==> e.inst.id != d.inst.id
    ensures AllUp(hex, m1, news + more, done + [d])
  {
    forall e | e in done ensures UpOrRefused(hex, m1, news + more, e) {
      UpStays(hex, m0, m1, news, more, e, d.inst.id);
    }
  }

  predicate SameEntry(m0: map<int, Managed>, m1: map<int, Managed>, id: int) {
    (id in m0 <==> id in m1) && (id in m0 ==> m0[id] == m1[id])
  }

  lemma EntryOutside(m0: map<int, Managed>, m1: map<int, Managed>, ids: set<int>, id: int)
    requires m1 - ids == m0 - ids && id !in ids
    ensures SameEntry(m0, m1, id)
  {
    assert id in m0 <==> id in m0 - ids;
    assert id in m1 <==> id in m1 - ids;
    assert id in m0 ==> (m0 - ids)[id] == m0[id] && (m1 - ids)[id] == m1[id];
  }

  lemma FrameNext(m0: map<int, Managed>, m1: map<int, Managed>, m2: map<int, Managed>, ids: set<int>, id: int)
    requires m1 - ids == m0 - ids && m2 - {id} == m1 - {id}
    ensures m2 - (ids + {id}) == m0 - (ids + {id})
  {
    assert m2 - (ids + {id}) == m2 - {id} - ids && m1 - (ids + {id}) == m1 - {id} - ids;
    assert m1 - (ids + {id}) == m1 - ids - {id} && m0 - (ids + {id}) == m0 - ids - {id};
  }

  /** Only these interfaces' devices were configured since. */
  predicate OnlySet(s0: seq<int>, s1: seq<int>, ids: set<int>) {
    s0 <= s1 && forall k :: |s0| <= k < |s1| ==> s1[k] in ids
  }

  lemma OnlySetNext(s0: seq<int>, s1: seq<int>, s2: seq<int>, ids: set<int>, id: int)
    requires OnlySet(s0, s1, ids) && (s2 == s1 || s2 == s1 + [id])
    ensures OnlySet(s0, s2, ids + {id}) && (s2 == s1 ==> OnlySet(s0, s2, ids))
  {
  }

  lemma SomethingSet(s0: seq<int>, s1: seq<int>, ids: set<int>)
    requires OnlySet(s0, s1, ids)
    ensures s1 != s0 ==> ids != {}
  {
    if |s0| < |s1| {
      assert s1[|s0|] in ids;
    }
  }

  lemma KeysAfter(m0: map<int, Managed>, m1: map<int, Managed>, id: int)
    requires m1 - {id} == m0 - {id}
    ensures m1.Keys <= m0.Keys + {id}
  {
    assert forall j :: j in m1 && j != id ==> j in m1 - {id};
  }

  // ---------------------------------------------------------------------------
  // Whole runs
  // ---------------------------------------------------------------------------

  datatype Op =
    | Ensure(d: Desired)
    | Reconcile(desired: seq<Desired>)
    | Remove(id: int)
    | StopAll
    | Open(id: int, src: Addr, udp: bool, n: nat)
    | EndFlow(id: int, f: Flow)

  predicate PlainOp(hex: Hex, op: Op) {
    match op
    case Ensure(d) => Plain(hex, d.inst, d.opts)
    case Reconcile(desired) => AllPlain(hex, desired)
    case _ => true
  }

  /** The first push of RefusedThenReverted. */
  method PushOther(m: Manager, a: Desired, b: Desired) returns (ok: bool)
    requires m.Valid() && a.inst.id == b.inst.id && m.Unchanged(m.ifaces, a) && m.SameDevice(m.ifaces, b)
    modifies m, m.aliases
    ensures m.Valid() && m.Answered(ok, b) && m.SameDevice(m.ifaces, a) && m.Accepted(a)
    ensures !ok ==> m.Unchanged(m.ifaces, a) && (m.refused != old(m.refused) ==> !InStep(m.told, m.ifaces[a.inst.id]))
    ensures m.refused == old(m.refused) && old(AllInStep(m.told, m.ifaces)) ==> AllInStep(m.told, m.ifaces)
    ensures ok && !m.Unchanged(m.ifaces, a) ==> m.ipcSets == old(m.ipcSets) + [a.inst.id]
  {
    ok := m.Ensure(b);
  }

  /** The second: the listed text costs no device call, another one a configuration. */
  method PushAgain(m: Manager, a: Desired)
    requires m.Valid() && m.SameDevice(m.ifaces, a) && m.Accepted(a)
    modifies m, m.aliases
    ensures m.Valid() && a.inst.id in m.ifaces
    ensures m.refused == old(m.refused) || m.refused == old(m.refused) + [a.inst.id]
    ensures m.refused == old(m.refused) ==> m.ifaces[a.inst.id].inst == a.inst && m.ifaces[a.inst.id].opts == a.opts
    ensures old(m.Unchanged(m.ifaces, a)) ==>
      && m.refused == old(m.refused) && m.ipcSets == old(m.ipcSets)
      && (InStep(m.told, m.ifaces[a.inst.id]) <==> old(InStep(m.told, m.ifaces[a.inst.id])))
    ensures !old(m.Unchanged(m.ifaces, a)) ==> m.ipcSets == old(m.ipcSets) + [a.inst.id]
    ensures m.refused == old(m.refused) && old(AllInStep(m.told, m.ifaces)) ==> InStep(m.told, m.ifaces[a.inst.id])
  {
    var ok := m.Ensure(a);
  }

  /** An inbound whose device has what is asked for is pushed other settings for the same device, and
      then the first ones again. When the device refuses the others, the second push finds nothing
      new and succeeds, although nobody knows what the device has now. */
  method RefusedThenReverted(m: Manager, a: Desired, b: Desired)
    requires m.Valid() && a.inst.id == b.inst.id && m.Unchanged(m.ifaces, a) && m.SameDevice(m.ifaces, b)
    modifies m, m.aliases
    ensures m.Valid()
    ensures m.refused == old(m.refused) + [a.inst.id] && m.ipcSets == old(m.ipcSets) + [a.inst.id] ==>
      && a.inst.id in m.ifaces && m.ifaces[a.inst.id].inst == a.inst && m.ifaces[a.inst.id].opts == a.opts
      && !InStep(m.told, m.ifaces[a.inst.id])
    ensures m.refused == old(m.refused) && old(AllInStep(m.told, m.ifaces)) ==>
      a.inst.id in m.ifaces && m.ifaces[a.inst.id].inst == a.inst && InStep(m.told, m.ifaces[a.inst.id])
  {
    var ok := PushOther(m, a, b);
    PushAgain(m, a);
  }

  /** After any operations every live flow belongs to the peer it was opened for, every alias
      deletion was of an alias this process had added and not tried to delete since, and an
      address that was on the host before and not this process's own is still there. Unless a
      rebuild failed, every alias it answers for is wanted by an interface that is up. */
  method Run(m: Manager, ops: seq<Op>)
    requires m.Valid()
    modifies m, m.aliases
    ensures m.Valid() && (old(m.Owned()) && (forall op :: op in ops ==> PlainOp(m.hex, op)) ==> m.Owned())
    ensures OnlyOwnDeleted(m.aliases.log) && Spares(old(m.aliases.Now()), m.aliases.Now())
    ensures old(m.Tidy()) && m.failedRebuilds == old(m.failedRebuilds) ==> m.Tidy()
    ensures old(AllInStep(m.told, m.ifaces)) && m.refused == old(m.refused) ==> AllInStep(m.told, m.ifaces)
  {
    ghost var start, plain := m.Here(), forall op :: op in ops ==> PlainOp(m.hex, op);
    KeptSame(plain, start);
    for k := 0 to |ops|
      invariant m.Valid() && Kept(plain, start, m.Here())
    {
      ghost var before := m.Here();
      assert plain ==> PlainOp(m.hex, ops[k]);
      Step(m, ops[k]);
      KeptTwice(plain, start, before, m.Here());
    }
  }

  /** The aliases an operation may issue commands about: an inbound whose wishes stay contributes
      none. */
  function OpMoves(m: Manager, ifaces: map<int, Managed>, op: Op): set<Alias> {
    match op
    case Ensure(d) => m.Moves(ifaces, d)
    case Reconcile(desired) => m.AllMoves(ifaces, desired) + m.GoneMoves(ifaces, ifaces.Keys - Ids(desired))
    case Remove(id) => MovedBetween(WantedAt(m.first, ifaces, id), map[])
    case StopAll => m.GoneMoves(ifaces, ifaces.Keys)
    case _ => {}
  }

  predicate DistinctOp(op: Op) { op.Reconcile? ==> Distinct(op.desired) }

  /** One operation of a run. */
  method Step(m: Manager, op: Op)
    requires m.Valid()
    modifies m, m.aliases
    ensures m.Valid() && Kept(PlainOp(m.hex, op), old(m.Here()), m.Here())
    ensures DistinctOp(op) ==> Touches(old(m.aliases.Now()), m.aliases.Now(), OpMoves(m, old(m.ifaces), op))
  {
    match op {
      case Ensure(d) =>
        ghost var more := m.EnsureStep(d);
      case Reconcile(desired) =>
        ghost var news := m.Reconcile(desired);
      case Remove(id) => m.Remove(id);
      case StopAll => m.StopAll();
      case Open(id, src, udp, n) => m.Open(id, src, udp, n);
      case EndFlow(id, f) => m.EndFlow(id, f);
    }
  }

  lemma NothingLeft(ids: set<int>, todo: set<int>)
    requires todo == {}
    ensures ids - todo == ids
  {
  }

  lemma NotThere(m: map<int, Managed>, id: int)
    requires id !in m
    ensures m - {id} == m
  {
  }

  lemma MinusTwice(m: map<int, Managed>, a: set<int>, id: int)
    ensures m - a - {id} == m - (a + {id})
  {
  }
}
