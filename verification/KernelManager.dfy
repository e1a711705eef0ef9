/** The kernel-interface manager: it brings links, NAT tables and FORWARD rules to what the
    inbounds want, across command failures, its own death at any point, and links that
    outlived it. */
module KernelManager {
  import opened Sets
  import opened Text
  import opened KernelConfig
  import opened KernelOwnership
  import opened KernelHost
  import opened KernelSpec

  /** How an Ensure ends. */
  datatype Answer = Succeeded | EgressFailed | Failed

  /** Every Ensure of an inbound whose settings give a spec, in order. */
  datatype Calls = NoCalls | After(earlier: Calls, spec: Spec, answer: Answer)

  class Manager {
    const host: Host
    var ifaces: map<int, Managed>
    var generation: nat
    /** The ids at which an in-place sync has set out to replace the config under a stale entry. */
    ghost var staleSyncs: set<int>
    /** The ids at which replacing a managed link has failed: the entry may describe a link that
        is gone. */
    ghost var failedRebuilds: set<int>
    ghost var calls: Calls

    constructor (host: Host)
      ensures this.host == host && ifaces == map[] && staleSyncs == {} && failedRebuilds == {} && calls == NoCalls
    {
      this.host, ifaces, generation, staleSyncs, failedRebuilds, calls := host, map[], 0, {}, {}, NoCalls;
    }

    predicate Valid()
      reads this
    {
      forall id :: id in ifaces ==>
        ifaces[id].spec.id == id && WellFormed(ifaces[id].spec)
    }

    /** Crash safety at the spec's interface is not lost. */
    twostate predicate StaysSafe(s: Spec)
      reads host
    {
      Sound(host.derive, s) && CrashSafeAt(host.derive, old(host.w), s.id) ==> CrashSafeAt(host.derive, host.w, s.id)
    }

    /** Nor is it on a link that already has the spec's key. */
    twostate predicate StaysFit(s: Spec)
      reads host
    {
      Sound(host.derive, s) && KeyFits(host.derive, old(host.w), s) && CrashSafeAt(host.derive, old(host.w), s.id) ==>
        CrashSafeAt(host.derive, host.w, s.id) && KeyFits(host.derive, host.w, s)
    }

    twostate predicate SafeUnlessStale(s: Spec)
      reads this, host
    {
      s.id !in staleSyncs ==> StaysSafe(s)
    }

    /** A stale sync happens only in the trap. */
    twostate predicate StaleOnlyInTrap(s: Spec)
      reads this, host
    {
      || staleSyncs == old(staleSyncs)
      || (staleSyncs == old(staleSyncs) + {s.id} && old(host.alive)
          && StaleTrap(host.derive, old(host.w), old(ifaces), s))
    }

    /** The call keeps the managed entry fresh, or is a failed rebuild. */
    twostate predicate StaysFresh(s: Spec, ok: bool)
      reads this, host
    {
      host.alive && Sound(host.derive, s) && CrashSafeAt(host.derive, old(host.w), s.id) ==>
        FreshKept(host.derive, ok, old(host.w), old(ifaces), host.w, ifaces, s)
    }

    /** Where the call succeeds for a spec with an egress interface, the host forwards. */
    predicate Forwards(s: Spec, ok: bool)
      reads host
    {
      ok && s.forward.egress != "" ==> host.forwarding
    }

    /** The call succeeds just when none of the commands it needs has failed. */
    twostate predicate Answers(ok: bool)
      reads host
    {
      host.alive ==> (ok <==> host.errors == old(host.errors))
    }

    /** A success although such a command has failed is a rebuild after an adoption that failed. */
    twostate predicate Sure(s: Spec, ok: bool)
      reads this, host
    {
      host.alive && ok && host.errors != old(host.errors) ==> s.id !in old(ifaces) && s.id in old(host.w).links
    }

    // -------------------------------------------------------------------------
    // Egress
    // -------------------------------------------------------------------------

    /** Deletes every FORWARD rule with this interface's comment and no other. */
    method RemoveForwardRules(id: int)
      modifies host`w, host`alive, host`clean
      ensures host.Later()
      ensures host.w == old(host.w).(forward := host.w.forward)
      ensures OthersKept(old(host.w).forward, host.w.forward, id)
      ensures host.alive && host.clean && host.iptables ==>
        host.w.forward == Untagged(old(host.w).forward, ForwardComment(id))
      ensures !host.iptables ==> host.w == old(host.w)
    {
      if !host.iptables {
        return;
      }
      var tag := ForwardComment(id);
      var listed, listing := host.ListForward();
      if !listed {
        return;
      }
      ghost var start := host.w.forward;
      for k := 0 to |listing|
        invariant host.Later()
        invariant host.w == old(host.w).(forward := host.w.forward)
        invariant Thinned(start, host.w.forward, tag)
        invariant host.alive && host.clean ==> Tagged(host.w.forward, tag) == Tagged(listing[k..], tag)
      {
        if HasCommentTag(listing[k], tag) {
          RemoveTagged(host.w.forward, listing[k], tag);
          ThinnedNext(start, host.w.forward, listing[k], tag);
          host.DeleteForward(listing[k]);
        }
      }
      ThinnedKeepsOthers(start, host.w.forward, id);
      if host.alive && host.clean {
        AllUntagged(host.w.forward, tag);
      }
    }

    /** Puts one of the interface's rules at the head of the chain. */
    method InsertRule(f: ForwardRules, id: int, k: nat)
      requires f.egress != "" && ForwardOf(f, id) && k < 2
      modifies host`w, host`alive, host`clean
      ensures host.Later()
      ensures host.w == old(host.w).(forward := host.w.forward)
      ensures OthersKept(old(host.w).forward, host.w.forward, id)
      ensures host.alive && host.clean ==> host.w.forward == [Rules(f)[k]] + old(host.w).forward
    {
      StackedOn(f, id, k, host.w.forward);
      host.InsertForward(Rules(f)[k]);
    }

    method SyncForwardRules(id: int, f: ForwardRules)
      requires ForwardOf(f, id)
      modifies host`w, host`alive, host`clean
      ensures host.Later()
      ensures host.w == old(host.w).(forward := host.w.forward)
      ensures OthersKept(old(host.w).forward, host.w.forward, id)
      ensures host.alive && host.clean && host.iptables ==>
        host.w.forward == Stacked(f) + Untagged(old(host.w).forward, ForwardComment(id))
      ensures !host.iptables ==> host.w == old(host.w)
    {
      if !host.iptables {
        return;
      }
      ghost var w0 := host.w;
      RemoveForwardRules(id);
      ghost var w1, rules := host.w, Rules(f);
      if f.egress != "" {
        InsertRule(f, id, 0);
        OthersKeptTwice(w0.forward, w1.forward, host.w.forward, id);
        ghost var w2 := host.w;
        InsertRule(f, id, 1);
        OthersKeptTwice(w0.forward, w2.forward, host.w.forward, id);
        TwoOnTop(rules[0], rules[1], Untagged(old(host.w).forward, ForwardComment(id)));
      }
    }

    /** applyEgress: NAT when it changed, then the FORWARD accepts when they did. */
    method ApplyEgress(s: Spec, prevForward: ForwardRules, natChanged: bool) returns (ok: bool)
      requires ForwardOf(s.forward, s.id)
      modifies host
      ensures host.Later() && OnlyAt(old(host.w), host.w, s.id)
      ensures host.w.links == old(host.w).links && host.w.disk == old(host.w).disk
      ensures ok && host.alive && host.clean ==>
        && (if natChanged then NatIs(host.w, s.id, s.chain) else host.w.tables == old(host.w).tables)
        && (if prevForward == s.forward then host.w.forward == old(host.w).forward
            else host.iptables ==>
              host.w.forward == Stacked(s.forward) + Untagged(old(host.w).forward, ForwardComment(s.id)))
      ensures host.alive && host.clean ==> ok
      ensures host.alive ==> (ok <==> host.egressFailures == old(host.egressFailures))
      ensures !natChanged && prevForward == s.forward ==> host.w == old(host.w)
      ensures Forwards(s, ok) && Answers(ok)
      ensures s.forward.egress == "" ==> host.forwarding == old(host.forwarding)
    {
      if natChanged {
        ok := host.Nft(s.id, s.chain);
        if !ok {
          return false;
        }
      }
      if s.forward.egress != "" {
        ok := host.EnableIPv4Forwarding();
        if !ok {
          return false;
        }
      }
      if prevForward != s.forward {
        SyncForwardRules(s.id, s.forward);
      }
      ok := true;
    }

    // -------------------------------------------------------------------------
    // Links
    // -------------------------------------------------------------------------

    /** writeConf, then awg syncconf: the live link takes the new config. */
    method SyncConf(s: Spec) returns (ok: bool)
      modifies host`w, host`alive, host`clean, host`errors
      ensures host.Later() && OnlyAt(old(host.w), host.w, s.id)
      ensures host.w.tables == old(host.w).tables && host.w.forward == old(host.w).forward
      ensures StaysFit(s)
      ensures s.id in host.w.links <==> s.id in old(host.w).links
      ensures s.id in host.w.links ==>
        var l0, l1 := old(host.w).links[s.id], host.w.links[s.id];
        l1.made == l0.made && l1.up == l0.up && l1.addresses == l0.addresses && l1.mtu == l0.mtu
      ensures ok ==> s.id in host.w.links && host.w.links[s.id].conf == s.conf
      ensures ok ==> s.id in host.w.disk && host.w.disk[s.id] == Regular(s.conf)
      ensures (host.alive && host.clean ==> ok) && Answers(ok)
    {
      ok := host.WriteConf(s.id, s.conf);
      if !ok {
        return;
      }
      ok := host.ApplyConf(s.id);
    }

    /** Peer and egress changes on a live, structurally unchanged link. */
    method Reconfigure(prev: Spec, s: Spec) returns (ok: bool)
      requires prev.id == s.id && WellFormed(prev) && WellFormed(s) && prev.structFP == s.structFP
      modifies host
      ensures host.Later() && OnlyAt(old(host.w), host.w, s.id)
      ensures StaysFit(s)
      ensures s.id in host.w.links <==> s.id in old(host.w).links
      ensures s.id in host.w.links ==> host.w.links[s.id].up == old(host.w).links[s.id].up
      ensures s.id in host.w.links ==> host.w.links[s.id].made == old(host.w).links[s.id].made
      ensures prev.conf == s.conf ==> host.w.links == old(host.w).links && host.w.disk == old(host.w).disk
      ensures prev == s ==> host.w == old(host.w)
      ensures ok && host.alive && host.clean && s.id in old(host.w).links ==>
        (Converged(host.w, host.iptables, s) <==> SyncReaches(old(host.w), host.iptables, prev, s))
      ensures Forwards(s, ok) && Answers(ok) && (host.alive && host.clean ==> ok)
    {
      if prev.conf != s.conf {
        ok := SyncConf(s);
        if !ok {
          return;
        }
      }
      ghost var mid := host.w;
      ok := ApplyEgress(s, prev.forward, prev.chain != s.chain);
      SyncedForward(s.forward, s.id, mid.forward);
    }

    /** Takes over a link that outlived the panel; its egress state is unknown. */
    method Adopt(s: Spec) returns (ok: bool)
      requires WellFormed(s)
      modifies host
      ensures host.Later() && OnlyAt(old(host.w), host.w, s.id)
      ensures StaysFit(s)
      ensures s.id in host.w.links <==> s.id in old(host.w).links
      ensures s.id in host.w.links ==> host.w.links[s.id].up == old(host.w).links[s.id].up
      ensures s.id in host.w.links ==> host.w.links[s.id].made == old(host.w).links[s.id].made
      ensures ok && host.alive && host.clean && Host.LinkMatches(old(host.w), s.id, s.addresses, s.mtu)
          ==> Converged(host.w, host.iptables, s)
      ensures Forwards(s, ok) && Answers(ok) && (host.alive && host.clean ==> ok)
    {
      ok := SyncConf(s);
      if !ok {
        return;
      }
      ghost var mid := host.w;
      ok := ApplyEgress(s, ForwardRules(OwnedInterfaceName(s.id), ""), true);
      SyncedForward(s.forward, s.id, mid.forward);
    }

    /** Builds the link from nothing; its config is already on disk. */
    method CreateLink(s: Spec) returns (ok: bool)
      requires host.alive ==> s.id !in host.w.links
      requires s.addresses != []
      modifies host`w, host`alive, host`clean, host`moduleLoaded, host`created, host`errors
      ensures host.Later() && Host.OnlyLink(old(host.w), host.w, s.id)
      ensures old(host.alive) && s.id in host.w.links ==>
        && host.w.links[s.id].panel
        && (host.w.links[s.id].key == Keyless || host.KeyIsDisks(host.w, s.id))
      ensures ok && host.alive ==> s.id in host.w.links
      ensures ok && host.alive ==>
        var l := host.w.links[s.id];
        && l == Link(true, l.made, l.key, l.conf, s.addresses, s.mtu, true)
        && host.KeyIsDisks(host.w, s.id) && host.w.disk[s.id] == Regular(l.conf)
      ensures (host.alive && host.clean ==> ok) && Answers(ok)
    {
      if !host.moduleLoaded {
        ok := host.Modprobe();
        if !ok {
          return;
        }
      }
      ok := host.LinkAdd(s.id);
      if !ok {
        return;
      }
      ok := host.ApplyConf(s.id);
      if !ok {
        return;
      }
      ok := AddAddresses(s);
      if !ok {
        return;
      }
      ok := host.LinkUp(s.id, s.mtu);
    }

    method AddAddresses(s: Spec) returns (ok: bool)
      modifies host`w, host`alive, host`clean, host`errors
      ensures host.Later() && Host.OnlyLink(old(host.w), host.w, s.id)
      ensures s.id in host.w.links <==> s.id in old(host.w).links
      ensures s.id in host.w.links ==>
        host.w.links[s.id] == old(host.w).links[s.id].(addresses := host.w.links[s.id].addresses)
      ensures ok && s.id in host.w.links ==>
        host.w.links[s.id].addresses == old(host.w).links[s.id].addresses + s.addresses
      ensures (host.alive && host.clean ==> ok) && Answers(ok)
    {
      for k := 0 to |s.addresses|
        invariant host.Later() && Host.OnlyLink(old(host.w), host.w, s.id)
        invariant host.alive ==> host.errors == old(host.errors)
        invariant s.id in host.w.links <==> s.id in old(host.w).links
        invariant s.id in host.w.links ==>
          host.w.links[s.id] == old(host.w).links[s.id].(addresses := host.w.links[s.id].addresses)
        invariant s.id in host.w.links ==>
          host.w.links[s.id].addresses == old(host.w).links[s.id].addresses + s.addresses[..k]
      {
        ok := host.AddressAdd(s.id, s.addresses[k]);
        if !ok {
          return;
        }
      }
      assert s.addresses[..|s.addresses|] == s.addresses;
      ok := true;
    }

    method DeleteLink(id: int) returns (ok: bool)
      modifies host`w, host`alive, host`clean, host`undeleted
      ensures host.Later()
      ensures host.w == old(host.w) || host.w == old(host.w).(links := old(host.w).links - {id})
      ensures (ok <==> id !in host.w.links) && (host.alive && !ok ==> host.undeleted > old(host.undeleted))
      ensures host.alive && host.clean && id in old(host.w).links ==> ok
    {
      var deleted := host.LinkDel(id);
      var left := host.LinkExists(id);
      ok := !left;
    }

    /** Refuses a live link whose key is not the owned config's. */
    method VerifyLiveInterface(id: int, config: string) returns (ok: bool)
      modifies host`w, host`alive, host`clean
      ensures host.Later() && host.w == old(host.w)
      ensures ok ==> id in host.w.links && VerifyAccepts(host.derive, host.w.links[id].key, config)
      ensures host.alive && host.clean && id in host.w.links ==>
        (VerifyAccepts(host.derive, host.w.links[id].key, config) ==> ok)
    {
      var want := ConfigInterfacePublicKey(host.derive, config);
      if want.None? {
        return false;
      }
      var shown, got := host.ShowKey(id);
      ok := shown && (got == Keyless || got == Key(want.value));
    }

    // -------------------------------------------------------------------------
    // Ensure
    // -------------------------------------------------------------------------

    /** Config to disk, then a new link; a half-built link is removed again. */
    method BuildLink(s: Spec) returns (ok: bool)
      requires s.addresses != [] && (host.alive ==> s.id !in host.w.links)
      modifies host`w, host`alive, host`clean, host`moduleLoaded, host`created, host`errors, host`undeleted
      ensures host.Later() && OnlyAt(old(host.w), host.w, s.id)
      ensures host.w.tables == old(host.w).tables && host.w.forward == old(host.w).forward
      ensures StaysSafe(s)
      ensures old(host.alive) && s.id in host.w.links ==> host.w.links[s.id].panel
      ensures ok && host.alive ==>
        HalfRebuilt(host.derive, old(host.w), host.w, s)
      ensures (host.alive && host.clean ==> ok) && Answers(ok)
      ensures host.alive && !ok ==> s.id !in host.w.links || host.undeleted > old(host.undeleted)
    {
      ok := host.WriteConf(s.id, s.conf);
      if !ok {
        return;
      }
      ghost var written := host.w;
      ok := CreateLink(s);
      if host.alive {
        assert host.w.disk == written.disk;
        if ok {
          LinkBuilt(host.derive, old(host.w), host.w, s);
        }
      }
      if !ok {
        var left := host.LinkExists(s.id);
        if left {
          var deleted := host.LinkDel(s.id);
        }
      }
    }

    /** The old config stays on disk until the old link is gone. A new link that did not get finished
        is removed again. */
    method ReplaceLink(s: Spec, linkUp: bool) returns (ok: bool)
      requires s.addresses != [] && linkUp == (s.id in host.w.links)
      modifies host`w, host`alive, host`clean, host`moduleLoaded, host`created, host`errors, host`undeleted
      ensures host.Later() && OnlyAt(old(host.w), host.w, s.id)
      ensures host.w.tables == old(host.w).tables && host.w.forward == old(host.w).forward
      ensures StaysSafe(s)
      ensures ok && host.alive ==> HalfRebuilt(host.derive, old(host.w), host.w, s)
      ensures host.alive && host.clean ==> ok
      ensures host.alive && ok ==> host.errors == old(host.errors)
      ensures host.alive && !ok ==> s.id !in host.w.links || host.undeleted > old(host.undeleted)
    {
      if linkUp {
        ok := DeleteLink(s.id);
        if !ok {
          return;
        }
      }
      ghost var bare := host.w;
      ok := BuildLink(s);
      OnlyAtTwice(old(host.w), bare, host.w, s.id);
    }

    /** Replaces the link, and applies the egress anew. */
    method Rebuild(s: Spec, linkUp: bool, prevForward: ForwardRules) returns (ok: bool)
      requires WellFormed(s) && linkUp == (s.id in host.w.links)
      modifies host
      ensures host.Later() && OnlyAt(old(host.w), host.w, s.id)
      ensures StaysSafe(s)
      ensures ok && host.alive ==> s.id in host.w.links && KeyFits(host.derive, host.w, s)
      ensures ok && host.alive && host.clean ==>
        && host.w.links[s.id].up
        && (Converged(host.w, host.iptables, s) <==>
              (prevForward == s.forward ==> ForwardIs(old(host.w), host.iptables, s)))
      ensures Forwards(s, ok) && (host.alive && host.clean ==> ok)
      ensures host.alive && ok ==> host.errors == old(host.errors)
      ensures host.alive && !ok && host.egressFailures == old(host.egressFailures) ==>
        s.id !in host.w.links || host.undeleted > old(host.undeleted)
      ensures host.alive && host.egressFailures != old(host.egressFailures) ==>
        !ok && HalfRebuilt(host.derive, old(host.w), host.w, s)
    {
      ok := ReplaceLink(s, linkUp);
      if !ok {
        return;
      }
      ghost var mid := host.w;
      if host.alive {
        RebuiltLink(host.derive, old(host.w), mid, s);
      }
      ok := ApplyEgress(s, prevForward, true);
      SyncedForward(s.forward, s.id, mid.forward);
    }

    method Install(s: Spec, adopted: bool)
      modifies this
      ensures ifaces == old(ifaces)[s.id := Managed(s, generation, adopted)]
      ensures generation == old(generation) + 1 && staleSyncs == old(staleSyncs)
    {
      generation := generation + 1;
      ifaces := ifaces[s.id := Managed(s, generation, adopted)];
    }

    /** The branch for a live, managed, structurally unchanged link. */
    method EnsureInPlace(s: Spec) returns (ok: bool)
      requires Valid() && s.id in ifaces && s.id in host.w.links
      requires WellFormed(s) && ifaces[s.id].spec.structFP == s.structFP
      modifies this, host
      ensures Valid() && host.Later() && OnlyAt(old(host.w), host.w, s.id)
      ensures SafeUnlessStale(s)
      ensures StaleOnlyInTrap(s)
      ensures Installed(ok, old(ifaces), ifaces, s)
      ensures ok && host.alive && host.clean ==> Reached(old(host.w), old(ifaces), host.w, host.iptables, s)
      ensures Forwards(s, ok) && Sure(s, ok) && (host.alive && host.clean ==> ok)
      ensures Sound(host.derive, s) && CrashSafeAt(host.derive, old(host.w), s.id) ==>
        FreshKept(host.derive, ok, old(host.w), old(ifaces), host.w, ifaces, s)
      ensures Repeats(old(host.w), old(ifaces), s) ==> host.w == old(host.w) && ifaces == old(ifaces)
      ensures SessionsKept(old(host.w), old(ifaces), host.w, s)
    {
      ghost var w0, m0 := host.w, ifaces;
      ok := SyncInPlace(s);
      if Sound(host.derive, s) && CrashSafeAt(host.derive, w0, s.id) && Fresh(host.derive, w0, m0[s.id].spec) {
        InPlaceFresh(host.derive, w0, host.w, m0, ifaces, s);
      }
    }

    method SyncInPlace(s: Spec) returns (ok: bool)
      requires Valid() && s.id in ifaces && s.id in host.w.links
      requires WellFormed(s) && ifaces[s.id].spec.structFP == s.structFP
      modifies this, host
      ensures Valid() && host.Later() && OnlyAt(old(host.w), host.w, s.id)
      ensures SafeUnlessStale(s)
      ensures StaleOnlyInTrap(s)
      ensures ifaces == if ok then old(ifaces)[s.id := old(ifaces)[s.id].(spec := s)] else old(ifaces)
      ensures ok && host.alive && host.clean ==> Reached(old(host.w), old(ifaces), host.w, host.iptables, s)
      ensures Forwards(s, ok) && Answers(ok) && (host.alive && host.clean ==> ok)
      ensures Sound(host.derive, s) && CrashSafeAt(host.derive, old(host.w), s.id) ==>
        (KeyFits(host.derive, old(host.w), s) ==> KeyFits(host.derive, host.w, s))
      ensures Repeats(old(host.w), old(ifaces), s) ==> host.w == old(host.w) && ifaces == old(ifaces)
      ensures SessionsKept(old(host.w), old(ifaces), host.w, s)
    {
      var prev := ifaces[s.id].spec;
      staleSyncs := staleSyncs
        + if host.alive && prev.conf != s.conf && !KeyFits(host.derive, host.w, s) then {s.id} else {};
      ghost var w0, m0 := host.w, ifaces;
      ok := Reconfigure(prev, s);
      SyncedReached(w0, m0, host.w, host.iptables, s);
      if ok {
        ifaces := ifaces[s.id := ifaces[s.id].(spec := s)];
      }
    }

    /** The branch that replaces the link. */
    method EnsureRebuilt(s: Spec) returns (ok: bool)
      requires Valid() && WellFormed(s)
      modifies this, host
      ensures Valid() && host.Later() && OnlyAt(old(host.w), host.w, s.id) && staleSyncs == old(staleSyncs)
      ensures StaysSafe(s)
      ensures Installed(ok, old(ifaces), ifaces, s)
      ensures ok && host.alive ==> s.id in host.w.links && KeyFits(host.derive, host.w, s)
      ensures ok && host.alive && host.clean ==>
        && host.w.links[s.id].up
        && (Converged(host.w, host.iptables, s) <==>
              (s.id in old(ifaces) && old(ifaces)[s.id].spec.forward == s.forward ==>
                 ForwardIs(old(host.w), host.iptables, s)))
      ensures Forwards(s, ok) && (host.alive && host.clean ==> ok)
      ensures host.alive && ok ==> host.errors == old(host.errors)
      ensures host.alive && host.egressFailures != old(host.egressFailures) ==>
        !ok && HalfRebuilt(host.derive, old(host.w), host.w, s)
    {
      var linkUp := host.LinkExists(s.id);
      var prevForward := ForwardRules(OwnedInterfaceName(s.id), "");
      if s.id in ifaces {
        prevForward := ifaces[s.id].spec.forward;
      }
      ok := Rebuild(s, linkUp, prevForward);
      if ok {
        Install(s, false);
      }
    }

    /** When replacing a managed link gets as far as the egress and that fails, the new link and
        config stay and so does the old entry. */
    twostate predicate RebuildHalts(s: Spec, ok: bool)
      reads this, host
    {
      s.id in old(ifaces) && !KeptLink(old(host.w), old(ifaces), s) && host.alive
        && host.egressFailures != old(host.egressFailures) ==>
          !ok && ifaces == old(ifaces) && HalfRebuilt(host.derive, old(host.w), host.w, s)
    }

    /** Adopts a verified link that matches; anything else is rebuilt. */
    method AdoptOrRebuild(s: Spec, owned: Owned) returns (ok: bool)
      requires Valid() && WellFormed(s) && owned == ReadOwned(host.w, s.id) && !owned.Refused?
      requires s.id in host.w.links && s.id !in ifaces ==> Recoverable(host.derive, host.w, s.id)
      requires s.id in ifaces ==> !KeptLink(host.w, ifaces, s)
      modifies this, host
      ensures Valid() && host.Later() && OnlyAt(old(host.w), host.w, s.id) && staleSyncs == old(staleSyncs)
      ensures StaysSafe(s)
      ensures Installed(ok, old(ifaces), ifaces, s)
      ensures ok && host.alive && Sound(host.derive, s) && CrashSafeAt(host.derive, old(host.w), s.id) ==>
        KeyFits(host.derive, host.w, s)
      ensures ok && host.alive && host.clean ==> Reached(old(host.w), old(ifaces), host.w, host.iptables, s)
      ensures Forwards(s, ok) && Sure(s, ok) && (host.alive && host.clean ==> ok)
      ensures RebuildHalts(s, ok)
    {
      ghost var w0 := host.w;
      if s.id in host.w.links && s.id !in ifaces && InterfaceSection(owned.text) == InterfaceSection(s.conf)
         && Host.LinkMatches(host.w, s.id, s.addresses, s.mtu) {
        AdoptedKeyFits(host.derive, host.w, s);
        ok := Adopt(s);
        if ok {
          Install(s, true);
          return;
        }
      }
      ghost var w1 := host.w;
      ok := EnsureRebuilt(s);
      OnlyAtTwice(w0, w1, host.w, s.id);
    }

    method BringNew(s: Spec, owned: Owned) returns (ok: bool)
      requires Valid() && WellFormed(s) && owned == ReadOwned(host.w, s.id) && !owned.Refused?
      requires s.id in host.w.links && s.id !in ifaces ==> Recoverable(host.derive, host.w, s.id)
      requires s.id in ifaces ==> !KeptLink(host.w, ifaces, s)
      modifies this, host
      ensures Valid() && host.Later() && OnlyAt(old(host.w), host.w, s.id) && staleSyncs == old(staleSyncs)
      ensures StaysSafe(s)
      ensures Installed(ok, old(ifaces), ifaces, s)
      ensures ok && host.alive && host.clean ==> Reached(old(host.w), old(ifaces), host.w, host.iptables, s)
      ensures Forwards(s, ok) && Sure(s, ok) && (host.alive && host.clean ==> ok)
      ensures StaysFresh(s, ok)
      ensures RebuildHalts(s, ok)
    {
      ghost var w0, m0 := host.w, ifaces;
      ok := AdoptOrRebuild(s, owned);
      NewFresh(host.derive, ok, w0, m0, host.w, ifaces, s);
    }

    /** The decision between the three branches, after the ownership checks. */
    method Bring(s: Spec, owned: Owned) returns (ok: bool)
      requires Valid() && WellFormed(s) && owned == ReadOwned(host.w, s.id) && !owned.Refused?
      requires s.id in host.w.links && s.id !in ifaces ==> Recoverable(host.derive, host.w, s.id)
      modifies this, host
      ensures Valid() && host.Later() && OnlyAt(old(host.w), host.w, s.id)
      ensures SafeUnlessStale(s)
      ensures StaleOnlyInTrap(s)
      ensures Installed(ok, old(ifaces), ifaces, s)
      ensures ok && host.alive && host.clean ==> Reached(old(host.w), old(ifaces), host.w, host.iptables, s)
      ensures Forwards(s, ok) && Sure(s, ok) && (host.alive && host.clean ==> ok)
      ensures StaysFresh(s, ok)
      ensures Repeats(old(host.w), old(ifaces), s) ==> host.w == old(host.w) && ifaces == old(ifaces)
      ensures SessionsKept(old(host.w), old(ifaces), host.w, s)
      ensures RebuildHalts(s, ok)
    {
      var isManaged := s.id in ifaces;
      var linkUp := host.LinkExists(s.id);
      if linkUp && isManaged && ifaces[s.id].spec.structFP == s.structFP {
        ok := EnsureInPlace(s);
        return;
      }
      ok := BringNew(s, owned);
    }

    /** ensureLocked on a built spec. */
    method EnsureSpec(s: Spec) returns (ok: bool)
      requires Valid() && WellFormed(s)
      modifies this, host
      ensures Valid() && host.Later() && OnlyAt(old(host.w), host.w, s.id)
      ensures Foreign(host.derive, old(host.w), old(ifaces), s.id) ==> !ok && host.w == old(host.w)
      ensures SafeUnlessStale(s)
      ensures StaleOnlyInTrap(s)
      ensures Installed(ok, old(ifaces), ifaces, s)
      ensures ok && host.alive && host.clean ==> Reached(old(host.w), old(ifaces), host.w, host.iptables, s)
      ensures host.alive && host.clean ==>
        (ok <==> Accepts(host.derive, old(host.w), old(ifaces), s.id)) && (!ok ==> host.w == old(host.w))
      ensures StaysFresh(s, ok) && Forwards(s, ok) && Sure(s, ok)
      ensures Repeats(old(host.w), old(ifaces), s) ==> host.w == old(host.w) && ifaces == old(ifaces)
      ensures SessionsKept(old(host.w), old(ifaces), host.w, s)
      ensures RebuildHalts(s, ok)
    {
      var admitted, owned := Admit(s.id);
      if !admitted {
        return false;
      }
      ok := Bring(s, owned);
    }

    /** The ownership checks: a config the panel cannot recognise, or a live link it does not
        manage and cannot prove to be its own, stops the call. */
    method Admit(id: int) returns (admitted: bool, owned: Owned)
      requires Valid()
      modifies host`w, host`alive, host`clean
      ensures host.Later() && host.w == old(host.w) && owned == ReadOwned(host.w, id)
      ensures admitted ==> Accepts(host.derive, host.w, ifaces, id)
      ensures host.alive && host.clean ==> (admitted <==> Accepts(host.derive, host.w, ifaces, id))
    {
      owned := host.ReadOwnedConfig(id);
      if owned.Refused? {
        return false, owned;
      }
      admitted := true;
      if id in host.w.links && id !in ifaces {
        if owned.Missing? {
          return false, owned;
        }
        admitted := VerifyLiveInterface(id, owned.text);
      }
    }

    /** What ensuring a spec does. */
    twostate predicate Ensured(s: Spec, ok: bool)
      reads this, host
    {
      && (Foreign(host.derive, old(host.w), old(ifaces), s.id) ==> !ok && host.w == old(host.w))
      && StaleOnlyInTrap(s)
      && Installed(ok, old(ifaces), ifaces, s)
      && (host.alive && host.clean ==> (ok <==> Accepts(host.derive, old(host.w), old(ifaces), s.id)))
      && (ok && host.alive && host.clean ==> Reached(old(host.w), old(ifaces), host.w, host.iptables, s))
      && (Repeats(old(host.w), old(ifaces), s) ==> host.w == old(host.w) && ifaces == old(ifaces))
      && SessionsKept(old(host.w), old(ifaces), host.w, s)
      && RebuildHalts(s, ok)
      && Forwards(s, ok) && Sure(s, ok)
    }

    twostate predicate FailuresCounted(s: Spec, ok: bool)
      reads this, host
    {
      failedRebuilds == old(failedRebuilds)
        + if KeepsFresh(ok, old(host.w), old(ifaces), host.w, s) then {} else {s.id}
    }

    ghost function Now(): Standing
      reads this, host
    {
      Standing(host.w, ifaces, host.alive, host.clean, staleSyncs, failedRebuilds, host.forwarding)
    }

    /** What every operation keeps. */
    twostate predicate Kept(bad: set<int>)
      reads this, host
    {
      KeptAt(host.derive, host.iptables, bad, old(Now()), Now())
    }

    /** ensureLocked: brings one inbound's interface to the state d describes. */
    method Ensure(d: Desired) returns (ok: bool)
      requires Valid()
      modifies this, host
      ensures Valid() && OnlyAt(old(host.w), host.w, d.inst.id)
      ensures Kept(UnsoundOne(host.derive, d))
      ensures SpecOf(d).Err? ==> !ok && host.w == old(host.w) && ifaces == old(ifaces) && staleSyncs == old(staleSyncs)
      ensures SpecOf(d).Ok? ==> Ensured(SpecOf(d).value, ok)
      ensures SpecOf(d).Ok? ==> FailuresCounted(SpecOf(d).value, ok)
    {
      var built := BuildSpec(d);
      if built.Err? {
        KeptSame(host.derive, host.iptables, UnsoundOne(host.derive, d), Now(), d.inst.id);
        return false;
      }
      ok := EnsureBuilt(d, built.value);
    }

    method EnsureBuilt(d: Desired, s: Spec) returns (ok: bool)
      requires Valid() && SpecOf(d) == Ok(s)
      modifies this, host
      ensures Valid() && OnlyAt(old(host.w), host.w, d.inst.id) && Kept(UnsoundOne(host.derive, d)) && Ensured(s, ok)
      ensures FailuresCounted(s, ok) && calls == After(old(calls), s, AnswerOf(ok))
    {
      SpecFacts(host.derive, d, s);
      ok := EnsureKept(s);
    }

    twostate function AnswerOf(ok: bool): Answer
      reads host
    {
      if ok then Succeeded else if host.egressFailures != old(host.egressFailures) then EgressFailed else Failed
    }

    method EnsureKept(s: Spec) returns (ok: bool)
      requires Valid() && WellFormed(s)
      modifies this, host
      ensures Valid() && OnlyAt(old(host.w), host.w, s.id)
      ensures Kept(if Sound(host.derive, s) then {} else {s.id})
      ensures FailuresCounted(s, ok) && calls == After(old(calls), s, AnswerOf(ok))
      ensures Ensured(s, ok)
    {
      ghost var before := Now();
      ok := EnsureCounted(s);
      EnsuredKept(host.derive, host.iptables, ok, before, Now(), s);
    }

    method EnsureCounted(s: Spec) returns (ok: bool)
      requires Valid() && WellFormed(s)
      modifies this, host
      ensures Valid() && host.Later() && OnlyAt(old(host.w), host.w, s.id)
      ensures SafeUnlessStale(s) && StaysFresh(s, ok)
      ensures host.alive && host.clean && !ok ==> host.w == old(host.w)
      ensures FailuresCounted(s, ok) && calls == After(old(calls), s, AnswerOf(ok)) && Ensured(s, ok)
    {
      ghost var before, earlier := Now(), calls;
      ok := EnsureSpec(s);
      calls := After(earlier, s, AnswerOf(ok));
      failedRebuilds := before.failedRebuilds
        + if KeepsFresh(ok, before.w, before.ifaces, host.w, s) then {} else {s.id};
    }

    // -------------------------------------------------------------------------
    // Teardown
    // -------------------------------------------------------------------------

    /** NAT table, FORWARD accepts and private config of an interface whose link is gone. */
    method ClearEgress(id: int, found: bool) returns (ok: bool)
      modifies host
      ensures host.Later() && OnlyAt(old(host.w), host.w, id) && host.w.links == old(host.w).links
      ensures host.w.disk == old(host.w).disk || host.w.disk == old(host.w).disk - {id}
      ensures ok && host.alive && host.clean ==>
        && NothingServes(host.w, host.iptables, id)
        && (found ==> id !in host.w.disk) && (!found ==> host.w.disk == old(host.w).disk)
      ensures (host.alive && host.clean ==> ok) && Answers(ok)
    {
      ok := host.Nft(id, "");
      if !ok {
        return;
      }
      ghost var before := host.w.forward;
      RemoveForwardRules(id);
      UntaggedHasNone(before, ForwardComment(id));
      if found {
        ok := host.RemoveConf(id);
      }
    }

    /** Removes what the panel can prove is its own. */
    method Teardown(id: int) returns (ok: bool)
      requires Valid()
      modifies this, host
      ensures Valid() && host.Later() && OnlyAt(old(host.w), host.w, id)
      ensures staleSyncs == old(staleSyncs) && failedRebuilds == old(failedRebuilds)
      ensures Foreign(host.derive, old(host.w), old(ifaces), id) ==> !ok && host.w == old(host.w)
      ensures CrashSafeAt(host.derive, old(host.w), id) ==> CrashSafeAt(host.derive, host.w, id)
      ensures host.w.links == old(host.w).links || host.w.links == old(host.w).links - {id}
      ensures ifaces == if ok then old(ifaces) - {id} else old(ifaces)
      ensures ok && host.alive ==> id !in host.w.links && host.errors == old(host.errors)
      ensures host.alive && host.clean && host.w != old(host.w) ==>
        ok && NothingServes(host.w, host.iptables, id)
      ensures host.alive && host.clean ==> (ok <==> Removable(host.derive, old(host.w), old(ifaces), id))
      ensures host.alive && host.clean ==> Removed(host.derive, host.iptables, old(Now()), Now(), id)
    {
      var owned := host.ReadOwnedConfig(id);
      if owned.Refused? {
        return false;
      }
      var linkUp := host.LinkExists(id);
      if owned.Missing? && id !in ifaces {
        return !linkUp;
      }
      if linkUp && owned.Found? {
        ok := VerifyLiveInterface(id, owned.text);
        if !ok {
          return;
        }
      }
      ok := Dismantle(id, linkUp, owned.Found?);
      if ok {
        ifaces := ifaces - {id};
      }
    }

    /** The link first, then what served it. */
    method Dismantle(id: int, linkUp: bool, found: bool) returns (ok: bool)
      requires linkUp == (id in host.w.links) && (found <==> ReadOwned(host.w, id).Found?)
      requires (!found ==> id !in host.w.disk)
      modifies host
      ensures host.Later() && OnlyAt(old(host.w), host.w, id)
      ensures CrashSafeAt(host.derive, old(host.w), id) ==> CrashSafeAt(host.derive, host.w, id)
      ensures host.w.links == old(host.w).links || host.w.links == old(host.w).links - {id}
      ensures ok && host.alive ==> id !in host.w.links
      ensures ok && host.alive && host.clean ==>
        id !in host.w.disk && NothingServes(host.w, host.iptables, id)
      ensures (host.alive && host.clean ==> ok) && (host.alive && ok ==> host.errors == old(host.errors))
    {
      if linkUp {
        ok := DeleteLink(id);
        if !ok {
          return;
        }
      }
      ok := ClearEgress(id, found);
    }

    /** Remove: a teardown as one step of a run. */
    method Remove(id: int) returns (ok: bool)
      requires Valid()
      modifies this, host
      ensures Valid() && OnlyAt(old(host.w), host.w, id) && Kept({})
      ensures Foreign(host.derive, old(host.w), old(ifaces), id) ==> !ok && host.w == old(host.w)
      ensures ifaces == if ok then old(ifaces) - {id} else old(ifaces)
      ensures ok && host.alive ==> id !in host.w.links && host.errors == old(host.errors)
      ensures host.alive && host.clean ==> (ok <==> Removable(host.derive, old(host.w), old(ifaces), id))
      ensures host.alive && host.clean ==> Removed(host.derive, host.iptables, old(Now()), Now(), id)
    {
      ghost var before := Now();
      ok := Teardown(id);
      RemovedKept(host.derive, host.iptables, before, Now(), id);
    }

    /** StopAll. */
    method StopAll()
      requires Valid()
      modifies this, host
      ensures Valid() && Kept({}) && OnlyIn(old(Now()), Now(), old(ifaces).Keys)
      ensures ifaces.Keys <= old(ifaces).Keys
      ensures host.alive && host.clean ==>
        && AllRemoved(host.derive, host.iptables, old(Now()), Now(), old(ifaces).Keys)
        && forall id :: id in ifaces <==> id in old(ifaces) && !Removable(host.derive, old(host.w), old(ifaces), id)
    {
      ghost var start := Now();
      RemoveEach(ifaces.Keys);
    }

    /** Tears down every interface of a set, in any order. */
    method RemoveEach(ids: set<int>)
      requires Valid()
      modifies this, host
      ensures Valid() && Kept({}) && OnlyIn(old(Now()), Now(), ids)
      ensures ifaces.Keys <= old(ifaces).Keys && (ids == {} ==> Unmoved(old(Now()), Now()))
      ensures host.alive && host.clean ==> AllRemoved(host.derive, host.iptables, old(Now()), Now(), ids)
    {
      var todo := ids;
      ghost var start, done: set<int> := Now(), {};
      while todo != {}
        invariant done !! todo && done + todo == ids && Valid()
        invariant Swept(host.derive, host.iptables, start, Now(), done) && (ids == {} ==> Unmoved(start, Now()))
        decreases todo
      {
        var id := AnyOf(todo);
        ghost var before := Now();
        var ok := Remove(id);
        SweptOneMore(host.derive, host.iptables, start, before, Now(), done, id);
        done, todo := done + {id}, todo - {id};
      }
      assert done == ids;
    }

    /** Reconcile: the undesired go first, then each wanted inbound is ensured. */
    method Reconcile(desired: seq<Desired>)
      requires Valid()
      modifies this, host
      ensures Valid() && Kept(Unsound(host.derive, desired))
      ensures OnlyIn(old(Now()), Now(), Unwanted(old(Now()), Ids(desired)) + Ids(desired))
      ensures host.alive && host.clean ==> Unburdened(host.derive, host.iptables, old(Now()), Now(), Ids(desired))
      ensures host.alive && host.clean && AccurateNow(host.iptables, old(Now())) && Distinct(desired) ==>
        AllConverged(host.derive, host.iptables, old(Now()), Now(), desired)
      ensures Distinct(desired) ==> LinksKept(old(Now()), Now(), desired)
      ensures Unwanted(old(Now()), Ids(desired)) == {} && AllRepeated(old(Now()), desired) ==>
        Unmoved(old(Now()), Now())
    {
      ghost var start := Now();
      RemoveUndesired(Ids(desired));
      ghost var mid := Now();
      EnsureEach(desired);
      Reconciled(host.derive, host.iptables, start, mid, Now(), desired);
      OnlyInBoth(start, mid, Now(), Unwanted(start, Ids(desired)), Ids(desired));
    }

    method RemoveUndesired(want: set<int>)
      requires Valid()
      modifies this, host
      ensures Valid() && Kept({}) && SameFor(old(Now()), Now(), want)
      ensures OnlyIn(old(Now()), Now(), Unwanted(old(Now()), want))
      ensures Unwanted(old(Now()), want) == {} ==> Unmoved(old(Now()), Now())
      ensures host.alive && host.clean ==> Unburdened(host.derive, host.iptables, old(Now()), Now(), want)
    {
      ghost var start := Now();
      var attempted := ifaces.Keys - want;
      RemoveEach(attempted);
      ghost var mid := Now();
      ghost var recovered := RemoveRecovered(want + attempted);
      KeptTwice(host.derive, host.iptables, {}, {}, start, mid, Now());
      WantedUntouched(start, mid, Now(), attempted, recovered, want);
      OnlyUnwanted(start, mid, Now(), attempted, recovered, want);
      if host.alive && host.clean {
        TwoRounds(host.derive, host.iptables, start, mid, Now(), want);
      }
    }

    /** The interfaces only a config tells of. */
    method RemoveRecovered(but: set<int>) returns (ghost ids: set<int>)
      requires Valid()
      modifies this, host
      ensures Valid() && Kept({}) && OnlyIn(old(Now()), Now(), ids) && ids <= Host.OwnedIDs(old(host.w)) - but
      ensures ids == {} ==> Unmoved(old(Now()), Now())
      ensures host.alive && host.clean ==> ids == Host.OwnedIDs(old(host.w)) - but
      ensures host.alive && host.clean ==> AllRemoved(host.derive, host.iptables, old(Now()), Now(), ids)
    {
      ghost var start := Now();
      var owned := host.OwnedConfigIDs();
      ids := owned - but;
      ghost var listed := Now();
      RemoveEach(owned - but);
      KeptTwice(host.derive, host.iptables, {}, {}, start, listed, Now());
      OnlyInBoth(start, listed, Now(), {}, ids);
      SinceListed(host.derive, host.iptables, start, listed, Now(), ids);
    }

    method EnsureEach(desired: seq<Desired>)
      requires Valid()
      modifies this, host
      ensures Valid() && Brought(host.derive, host.iptables, Unsound(host.derive, desired), old(Now()), Now(), desired)
    {
      ghost var start := Now();
      assert desired[..0] == [];
      BroughtNone(host.derive, host.iptables, Unsound(host.derive, desired), start);
      for k := 0 to |desired|
        invariant Valid()
        invariant Brought(host.derive, host.iptables, Unsound(host.derive, desired), start, Now(), desired[..k])
      {
        EnsureAt(desired, k, start);
      }
      assert desired[..|desired|] == desired;
    }

    method EnsureAt(desired: seq<Desired>, k: nat, ghost start: Standing)
      requires Valid() && k < |desired|
      requires Brought(host.derive, host.iptables, Unsound(host.derive, desired), start, Now(), desired[..k])
      modifies this, host
      ensures Valid()
      ensures Brought(host.derive, host.iptables, Unsound(host.derive, desired), start, Now(), desired[..k + 1])
    {
      ghost var before := Now();
      EnsureNext(desired[k]);
      BroughtOneMore(host.derive, host.iptables, start, before, Now(), desired, k);
    }

    method EnsureNext(d: Desired)
      requires Valid()
      modifies this, host
      ensures Valid() && BroughtOne(host.derive, host.iptables, old(Now()), Now(), d)
    {
      ghost var before := Now();
      var ok := Ensure(d);
      if SpecOf(d).Ok? {
        SpecIsWellFormed(d);
        InstalledOnly(ok, before, Now(), SpecOf(d).value);
        if host.alive && host.clean {
          ReachedInstalled(host.derive, ok, before, Now(), host.iptables, d, SpecOf(d).value);
        }
      }
    }
  }
}
