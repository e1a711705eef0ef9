/** The IPv6 addresses the embedded manager puts on the host for its peers, and which of them
    it may take away again. */
module V6Alias {
  import opened Sets
  import opened Text
  import opened Amnezia

  /** One host address, always a /128. */
  datatype Alias = Alias(addr: string, iface: string)

  type Wanted = map<string, Alias>

  function EffectiveIPv6ExternalInterface(inst: Instance): string {
    if inst.ipv6ExternalInterface != "" then inst.ipv6ExternalInterface else inst.externalInterface
  }

  predicate Active(inst: Instance) { inst.ipv6Enabled && EffectiveIPv6ExternalInterface(inst) != "" }

  /** FirstIPv6 of a peer's AllowedIPs, blank when there is none. */
  type FirstV6 = seq<string> -> string

  function WantedOf(first: FirstV6, peers: seq<Peer>, iface: string): Wanted {
    if peers == [] then map[]
    else
      var rest, p := WantedOf(first, peers[..|peers| - 1], iface), peers[|peers| - 1];
      if p.email == "" || first(p.allowedIPs) == "" then rest else rest[p.email := Alias(first(p.allowedIPs), iface)]
  }

  /** desiredV6Aliases, by peer email. */
  function DesiredAliases(first: FirstV6, inst: Instance): Wanted {
    if !Active(inst) then map[] else WantedOf(first, inst.peers, EffectiveIPv6ExternalInterface(inst))
  }

  predicate Counts(first: FirstV6, p: Peer, email: string) { p.email == email != "" && first(p.allowedIPs) != "" }

  predicate Counted(first: FirstV6, peers: seq<Peer>, email: string) {
    exists i :: 0 <= i < |peers| && Counts(first, peers[i], email)
  }

  predicate LastCounted(first: FirstV6, peers: seq<Peer>, email: string, i: nat) {
    i < |peers| && Counts(first, peers[i], email) && forall j :: i < j < |peers| ==> !Counts(first, peers[j], email)
  }

  lemma {:induction false} WantedIff(first: FirstV6, peers: seq<Peer>, iface: string, email: string)
    ensures email in WantedOf(first, peers, iface) <==> Counted(first, peers, email)
  {
    if peers != [] {
      var n := |peers| - 1;
      var front := peers[..n];
      WantedIff(first, front, iface, email);
      if Counted(first, front, email) {
        var i :| 0 <= i < |front| && Counts(first, front[i], email);
        assert peers[i] == front[i];
      }
      if Counted(first, peers, email) && !Counts(first, peers[n], email) {
        var i :| 0 <= i < |peers| && Counts(first, peers[i], email);
        assert front[i] == peers[i];
      }
    }
  }

  lemma {:induction false} LastWins(first: FirstV6, peers: seq<Peer>, iface: string, email: string, i: nat)
    requires LastCounted(first, peers, email, i)
    ensures email in WantedOf(first, peers, iface)
    ensures WantedOf(first, peers, iface)[email] == Alias(first(peers[i].allowedIPs), iface)
  {
    var n := |peers| - 1;
    if i < n {
      assert !Counts(first, peers[n], email);
      LastWins(first, peers[..n], iface, email, i);
    }
  }

  /** An email has an alias just when IPv6 is enabled, there is an interface for it and a peer of that
      email has an IPv6 address; the last such peer's address goes to the IPv6 interface, or to the
      external one where none is given. */
  lemma DesiredIff(first: FirstV6, inst: Instance, email: string)
    ensures email in DesiredAliases(first, inst) <==>
      && inst.ipv6Enabled && (inst.ipv6ExternalInterface != "" || inst.externalInterface != "")
      && Counted(first, inst.peers, email)
    ensures email in DesiredAliases(first, inst) ==>
      DesiredAliases(first, inst)[email].iface ==
        if inst.ipv6ExternalInterface == "" then inst.externalInterface else inst.ipv6ExternalInterface
    ensures forall i: nat :: email in DesiredAliases(first, inst) && LastCounted(first, inst.peers, email, i) ==>
      DesiredAliases(first, inst)[email].addr == first(inst.peers[i].allowedIPs)
  {
    var iface := EffectiveIPv6ExternalInterface(inst);
    WantedIff(first, inst.peers, iface, email);
    OneInterface(first, inst.peers, iface, email);
    forall i: nat | LastCounted(first, inst.peers, email, i)
      ensures email in WantedOf(first, inst.peers, iface)
      ensures WantedOf(first, inst.peers, iface)[email].addr == first(inst.peers[i].allowedIPs)
    {
      LastWins(first, inst.peers, iface, email, i);
    }
  }

  lemma {:induction false} OneInterface(first: FirstV6, peers: seq<Peer>, iface: string, email: string)
    ensures email in WantedOf(first, peers, iface) ==> WantedOf(first, peers, iface)[email].iface == iface
  {
    if peers != [] {
      OneInterface(first, peers[..|peers| - 1], iface, email);
    }
  }

  method ComputeDesired(first: FirstV6, inst: Instance) returns (out: Wanted)
    ensures out == DesiredAliases(first, inst)
  {
    out := map[];
    if !Active(inst) {
      return;
    }
    var iface := EffectiveIPv6ExternalInterface(inst);
    for i := 0 to |inst.peers|
      invariant out == WantedOf(first, inst.peers[..i], iface)
    {
      var p := inst.peers[i];
      assert inst.peers[..i + 1][..i] == inst.peers[..i];
      if p.email != "" && first(p.allowedIPs) != "" {
        out := out[p.email := Alias(first(p.allowedIPs), iface)];
      }
    }
    assert inst.peers[..|inst.peers|] == inst.peers;
  }

  /** The emails of `a` that `b` gives another alias, or none. */
  function Moved(a: Wanted, b: Wanted): set<string> { set e | e in a && (e !in b || b[e] != a[e]) }

  predicate MovedAlias(a: Wanted, b: Wanted, x: Alias) { exists e :: e in Moved(a, b) && a[e] == x }

  method AliasesOf(a: Wanted, emails: set<string>) returns (out: seq<Alias>)
    requires emails <= a.Keys
    ensures |out| == |emails|
    ensures forall x :: x in out <==> exists e :: e in emails && a[e] == x
  {
    out := [];
    var todo := emails;
    while todo != {}
      invariant todo <= emails && |out| + |todo| == |emails|
      invariant forall x :: x in out <==> exists e :: e in emails - todo && a[e] == x
      decreases todo
    {
      var e := AnyOf(todo);
      ghost var before := todo;
      todo := todo - {e};
      assert emails - todo == emails - before + {e};
      out := out + [a[e]];
    }
    assert emails - todo == emails;
  }

  /** diffV6Aliases; an alias that stays as it is appears in neither list. */
  method Diff(old0: Wanted, new1: Wanted) returns (add: seq<Alias>, remove: seq<Alias>)
    ensures forall x :: x in add <==> MovedAlias(new1, old0, x)
    ensures forall x :: x in remove <==> MovedAlias(old0, new1, x)
    ensures old0 == new1 ==> add == [] && remove == []
  {
    remove := AliasesOf(old0, Moved(old0, new1));
    add := AliasesOf(new1, Moved(new1, old0));
    assert old0 == new1 ==> Moved(old0, new1) == {} && Moved(new1, old0) == {};
  }

  // ---------------------------------------------------------------------------
  // Ownership
  // ---------------------------------------------------------------------------

  /** Every command issued: an `ip addr add` that put the address there, one that did not, or an
      `ip addr del`, whatever it answered. */
  datatype Command = Added(alias: Alias) | Refused(alias: Alias) | Deleted(alias: Alias)

  /** The last command that changed who answers for the alias. */
  function Last(log: seq<Command>, a: Alias): Option<Command> {
    if log == [] then None
    else
      var c := log[|log| - 1];
      if c.alias == a && !c.Refused? then Some(c) else Last(log[..|log| - 1], a)
  }

  /** Every deletion is of an alias this process had added and not tried to delete since. */
  predicate OnlyOwnDeleted(log: seq<Command>) {
    forall k :: 0 <= k < |log| && log[k].Deleted? ==> Last(log[..k], log[k].alias) == Some(Added(log[k].alias))
  }

  /** The host's addresses, those this process answers for, and the commands so far. */
  datatype Snapshot = Snapshot(host: set<Alias>, owned: set<Alias>, log: seq<Command>)

  /** An address that was on the host and not this process's own stays there and does not become
      its own; without a command nothing changes at all. */
  predicate Spares(a: Snapshot, b: Snapshot) {
    && a.log <= b.log && (b.log == a.log ==> b == a)
    && a.host - a.owned <= b.host && (a.host - a.owned) !! b.owned
  }

  lemma SparesTwice(a: Snapshot, b: Snapshot, c: Snapshot)
    requires Spares(a, b) && Spares(b, c)
    ensures Spares(a, c)
  {
  }

  function AliasesIn(log: seq<Command>): set<Alias> { set c | c in log :: c.alias }

  lemma SomeAlias(log: seq<Command>)
    ensures log != [] ==> AliasesIn(log) != {}
  {
    if log != [] {
      assert log[0].alias in AliasesIn(log);
    }
  }

  /** Every command since was for one of these aliases, and nothing else changed. */
  ghost predicate Touches(a: Snapshot, b: Snapshot, moved: set<Alias>) {
    && a.log <= b.log && AliasesIn(b.log[|a.log|..]) <= moved
    && b.host - moved == a.host - moved && b.owned - moved == a.owned - moved
  }

  lemma TouchesTwice(a: Snapshot, b: Snapshot, c: Snapshot, first: set<Alias>, second: set<Alias>)
    requires Touches(a, b, first) && Touches(b, c, second)
    ensures Touches(a, c, first + second)
  {
    assert c.log[|a.log|..] == b.log[|a.log|..] + c.log[|b.log|..];
    forall x | x !in first + second ensures (x in c.host <==> x in a.host) && (x in c.owned <==> x in a.owned) {
      assert x in c.host - second <==> x in b.host - second;
      assert x in b.host - first <==> x in a.host - first;
      assert x in c.owned - second <==> x in b.owned - second;
      assert x in b.owned - first <==> x in a.owned - first;
    }
  }

  /** With no alias to touch nothing changes. */
  lemma TouchesNothing(a: Snapshot, b: Snapshot)
    requires Touches(a, b, {})
    ensures b == a
  {
    assert b.host - {} == b.host && a.host - {} == a.host && b.owned - {} == b.owned && a.owned - {} == a.owned;
    SomeAlias(b.log[|a.log|..]);
  }

  class Aliases {
    /** What is on the host, whoever put it there. */
    var host: set<Alias>
    /** v6Owned. */
    var owned: set<Alias>
    /** False once a command failed for another reason than the address being there. */
    var clean: bool
    ghost var log: seq<Command>

    constructor (host: set<Alias>)
      ensures this.host == host && owned == {} && log == [] && clean && Valid()
    {
      this.host, owned, log, clean := host, {}, [], true;
    }

    ghost predicate Valid()
      reads this
    {
      OnlyOwnDeleted(log) && forall a :: a in owned <==> Last(log, a) == Some(Added(a))
    }

    ghost function Now(): Snapshot
      reads this
    {
      Snapshot(host, owned, log)
    }

    /** addV6Alias: true just when the address is there because of this call. A command cut off
        by its timeout may have worked all the same. */
    method AddV6Alias(a: Alias) returns (added: bool)
      modifies this`host, this`clean, this`log
      ensures log == old(log) + [if added then Added(a) else Refused(a)]
      ensures added ==> a !in old(host) && host == old(host) + {a}
      ensures !added ==> host == old(host) || host == old(host) + {a}
      ensures clean ==> old(clean) && host == old(host) + {a} && (added <==> a !in old(host))
    {
      if * {
        clean := false;
        if * {
          host := host + {a};
        }
        added := false;
      } else {
        added := a !in host;
        host := host + {a};
      }
      log := log + [if added then Added(a) else Refused(a)];
    }

    method RemoveV6Alias(a: Alias)
      modifies this`host, this`clean, this`log
      ensures log == old(log) + [Deleted(a)]
      ensures host == old(host) || host == old(host) - {a}
      ensures clean ==> old(clean) && host == old(host) - {a}
    {
      log := log + [Deleted(a)];
      if * {
        clean := false;
        if * {
          return;
        }
      }
      host := host - {a};
    }

    /** applyV6Aliases: every add before any remove. */
    method Apply(add: seq<Alias>, remove: seq<Alias>)
      requires Valid()
      modifies this
      ensures Valid() && Spares(old(Now()), Now())
      ensures add == [] && remove == [] ==> Now() == old(Now())
      ensures Touches(old(Now()), Now(), Elements(add) + Elements(remove))
      ensures owned <= old(owned) + Elements(add) && owned !! Elements(remove)
      ensures clean ==> old(clean)
      ensures clean ==> host == HostAfter(old(host), old(owned), Elements(add), Elements(remove))
      ensures clean ==> owned == OwnedAfter(old(host), old(owned), Elements(add), Elements(remove))
    {
      ghost var start := Now();
      AddAll(add);
      ghost var mid := Now();
      RemoveAll(remove);
      SparesTwice(start, mid, Now());
      TouchesTwice(start, mid, Now(), Elements(add), Elements(remove));
    }

    method AddOwned(a: Alias)
      requires Valid()
      modifies this
      ensures Valid() && |log| == |old(log)| + 1 && Touches(old(Now()), Now(), {a})
      ensures owned == old(owned) || (a !in old(host) && owned == old(owned) + {a})
      ensures host == old(host) || host == old(host) + {a}
      ensures clean ==> old(clean) && host == old(host) + {a} && owned == old(owned) + ({a} - old(host))
    {
      ghost var log0 := log;
      var added := AddV6Alias(a);
      Logged(log0, if added then Added(a) else Refused(a));
      if added {
        owned := owned + {a};
      }
    }

    method AddAll(add: seq<Alias>)
      requires Valid()
      modifies this
      ensures Valid() && Spares(old(Now()), Now()) && Touches(old(Now()), Now(), Elements(add))
      ensures old(host) <= host && old(owned) <= owned <= old(owned) + Elements(add)
      ensures add == [] ==> Now() == old(Now())
      ensures clean ==> old(clean) && host == old(host) + Elements(add)
      ensures clean ==> owned == old(owned) + (Elements(add) - old(host))
    {
      ghost var start := Now();
      for i := 0 to |add|
        invariant Valid() && old(host) <= host && old(owned) <= owned <= old(owned) + Elements(add[..i])
        invariant Touches(start, Now(), Elements(add[..i])) && |log| == |old(log)| + i
        invariant forall x :: x in owned && x !in old(owned) ==> x !in old(host)
        invariant i == 0 ==> Now() == old(Now())
        invariant clean ==> old(clean) && host == old(host) + Elements(add[..i])
        invariant clean ==> owned == old(owned) + (Elements(add[..i]) - old(host))
      {
        OneMore(add, i);
        AddTwice(old(owned), old(host), Elements(add[..i]), add[i]);
        ghost var before := Now();
        AddOwned(add[i]);
        TouchesTwice(start, before, Now(), Elements(add[..i]), {add[i]});
      }
      assert add[..|add|] == add;
    }

    /** Only what this process itself added is ever deleted. */
    method RemoveOwned(a: Alias)
      requires Valid()
      modifies this
      ensures Valid() && Touches(old(Now()), Now(), {a}) && (log == old(log) ==> Now() == old(Now()))
      ensures owned == old(owned) - {a}
      ensures host == old(host) || (a in old(owned) && host == old(host) - {a})
      ensures clean ==> old(clean) && host == old(host) - ({a} * old(owned))
    {
      if a !in owned {
        return;
      }
      ghost var log0 := log;
      owned := owned - {a};
      RemoveV6Alias(a);
      Logged(log0, Deleted(a));
    }

    method RemoveAll(remove: seq<Alias>)
      requires Valid()
      modifies this
      ensures Valid() && Spares(old(Now()), Now()) && Touches(old(Now()), Now(), Elements(remove))
      ensures owned == old(owned) - Elements(remove) && host <= old(host)
      ensures remove == [] ==> Now() == old(Now())
      ensures clean ==> old(clean) && host == old(host) - (Elements(remove) * old(owned))
    {
      ghost var start := Now();
      for i := 0 to |remove|
        invariant Valid() && Touches(start, Now(), Elements(remove[..i])) && (log == old(log) ==> Now() == old(Now()))
        invariant owned == old(owned) - Elements(remove[..i])
        invariant old(host) - old(owned) <= host <= old(host)
        invariant i == 0 ==> Now() == old(Now())
        invariant clean ==> old(clean) && host == old(host) - (Elements(remove[..i]) * old(owned))
      {
        OneMore(remove, i);
        ghost var before := Now();
        RemoveOwned(remove[i]);
        TouchesTwice(start, before, Now(), Elements(remove[..i]), {remove[i]});
      }
      assert remove[..|remove|] == remove;
    }
  }

  function Elements(s: seq<Alias>): set<Alias> { set x | x in s }

  lemma AddTwice(owned: set<Alias>, host: set<Alias>, done: set<Alias>, a: Alias)
    ensures owned + (done - host) + ({a} - (host + done)) == owned + (done + {a} - host)
    ensures host + done + {a} == host + (done + {a})
  {
  }

  lemma OneMore(s: seq<Alias>, i: nat)
    requires i < |s|
    ensures Elements(s[..i + 1]) == Elements(s[..i]) + {s[i]}
  {
    assert s[..i + 1] == s[..i] + [s[i]];
  }

  lemma Logged(log: seq<Command>, c: Command)
    requires OnlyOwnDeleted(log) && (c.Deleted? ==> Last(log, c.alias) == Some(Added(c.alias)))
    ensures OnlyOwnDeleted(log + [c])
    ensures forall a :: Last(log + [c], a) == if a == c.alias && !c.Refused? then Some(c) else Last(log, a)
  {
    var l := log + [c];
    assert l[..|log|] == log;
    forall k | 0 <= k < |l| && l[k].Deleted? ensures Last(l[..k], l[k].alias) == Some(Added(l[k].alias)) {
      if k < |log| {
        assert l[..k] == log[..k];
      }
    }
  }

  // ---------------------------------------------------------------------------
  // What a change of wishes leaves on the host
  // ---------------------------------------------------------------------------

  /** The host after an Apply without failures, as Aliases.Apply says. */
  function HostAfter(host: set<Alias>, owned: set<Alias>, add: set<Alias>, remove: set<Alias>): set<Alias> {
    host + add - (remove * (owned + (add - host)))
  }

  /** And what the process answers for then. */
  function OwnedAfter(host: set<Alias>, owned: set<Alias>, add: set<Alias>, remove: set<Alias>): set<Alias> {
    owned + (add - host) - remove
  }

  function MovedAliases(a: Wanted, b: Wanted): set<Alias> { set e | e in Moved(a, b) :: a[e] }

  /** The aliases given up and those newly wanted. */
  function MovedBetween(a: Wanted, b: Wanted): set<Alias> { MovedAliases(a, b) + MovedAliases(b, a) }

  /** After a change of wishes every wanted alias is on the host just when no email gives up an
      alias of ours that another email still wants, or takes over. */
  lemma AllPresentIff(w0: Wanted, w1: Wanted, host: set<Alias>, owned: set<Alias>)
    requires forall e :: e in w0 && e in w1 && w0[e] == w1[e] ==> w1[e] in host
    ensures
      var add, remove := MovedAliases(w1, w0), MovedAliases(w0, w1);
      (forall e :: e in w1 ==> w1[e] in HostAfter(host, owned, add, remove))
      <==> (forall e :: e in w1 && w1[e] in owned + (add - host) ==> w1[e] !in remove)
  {
    var add, remove := MovedAliases(w1, w0), MovedAliases(w0, w1);
    forall e | e in w1 ensures w1[e] in host + add {
      if e in Moved(w1, w0) {
        assert w1[e] in add;
      }
    }
  }

  /** Renaming a peer keeps its address and loses its alias. */
  lemma RenameLosesAlias(x: Alias, before: string, after: string)
    requires before != after
    ensures
      var w0, w1: Wanted := map[before := x], map[after := x];
      x !in HostAfter({x}, {x}, MovedAliases(w1, w0), MovedAliases(w0, w1))
  {
    var w0, w1: Wanted := map[before := x], map[after := x];
    assert before in Moved(w0, w1) && after in Moved(w1, w0);
    assert x in MovedAliases(w0, w1);
  }
}
