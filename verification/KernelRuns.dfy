/** Whole runs of the kernel-interface manager: operations, restarts and what others do to the
    host in between. The calls that the manager's own bookkeeping gets wrong are stated here
    with the exact condition under which they go wrong. */
module KernelRuns {
  import opened Text
  import opened Amnezia
  import opened KernelConfig
  import opened KernelOwnership
  import opened KernelHost
  import opened KernelSpec
  import opened KernelManager

  datatype Op =
    | Ensure(d: Desired)
    | Reconcile(desired: seq<Desired>)
    | Remove(id: int)
    | StopAll
    | Restart
    | LinksDeleted(ids: set<int>)
    | Outside(world: World, forwarding: bool)

  /** The ids of the unsound inbounds an operation is given. */
  function BadOp(derive: Derive, op: Op): set<int> {
    match op
    case Ensure(d) => UnsoundOne(derive, d)
    case Reconcile(desired) => Unsound(derive, desired)
    case _ => {}
  }

  function Bad(derive: Derive, ops: seq<Op>): set<int> {
    set op, id | op in ops && id in BadOp(derive, op) :: id
  }

  /** Nobody but the panel changes the host, other than by deleting links. */
  predicate Quiet(ops: seq<Op>) { forall op :: op in ops ==> !op.Outside? }

  /** Nobody but the panel changes the host at all. */
  predicate Alone(ops: seq<Op>) { forall op :: op in ops ==> !op.Outside? && !op.LinksDeleted? }

  /** Whatever others may do between operations: anything to their own links and to the packet
      filters, but the panel's configs are private to it and its links keep the key it set. */
  predicate External(w0: World, w1: World) {
    && w1.disk == w0.disk
    && forall id :: id in w1.links && w1.links[id].panel ==>
         id in w0.links && w0.links[id].panel && w1.links[id].key == w0.links[id].key
  }

  /** What a run keeps; `quiet` and `alone` say what others did meanwhile. */
  ghost predicate RunKept(derive: Derive, iptables: bool, bad: set<int>, quiet: bool, alone: bool,
                          a: Standing, b: Standing) {
    && (b.clean ==> a.clean) && a.staleSyncs <= b.staleSyncs && a.failedRebuilds <= b.failedRebuilds
    && SafeBut(derive, a.w, b.w, bad + b.staleSyncs) && SteadyBut(derive, a, b, bad)
    && (quiet && b.clean && AccurateNow(iptables, a) ==> AccurateNow(iptables, b))
    && (quiet ==> Unowned(b.w.forward) == Unowned(a.w.forward) && ForwardingKept(a, b))
    && (alone ==> ForeignKept(derive, a, b))
  }

  lemma RunKeptTwice(derive: Derive, iptables: bool, bad: set<int>, quiet: bool, alone: bool,
                     bad1: set<int>, quiet1: bool, alone1: bool, a: Standing, b: Standing, c: Standing)
    requires RunKept(derive, iptables, bad, quiet, alone, a, b) && RunKept(derive, iptables, bad1, quiet1, alone1, b, c)
    requires bad1 <= bad && (quiet ==> quiet1) && (alone ==> alone1)
    ensures RunKept(derive, iptables, bad, quiet, alone, a, c)
  {
    if alone {
      ForeignKeptTwice(derive, a, b, c);
    }
  }

  /** An operation of the manager's own counts as a run in which nobody else does anything. */
  lemma KeptInRun(derive: Derive, iptables: bool, bad: set<int>, a: Standing, b: Standing)
    requires KeptAt(derive, iptables, bad, a, b)
    ensures RunKept(derive, iptables, bad, true, true, a, b)
  {
  }

  /** A new process knows no interface, so nothing it believes can be wrong. */
  lemma RestartKeeps(derive: Derive, iptables: bool, a: Standing)
    ensures RunKept(derive, iptables, {}, true, true, a, a.(ifaces := map[], alive := true))
  {
  }

  lemma OutsideKeeps(derive: Derive, iptables: bool, a: Standing, w1: World, forwarding: bool)
    requires External(a.w, w1) && forall j :: j in a.ifaces ==> a.ifaces[j].spec.id == j
    ensures RunKept(derive, iptables, {}, false, false, a, a.(w := w1, forwarding := forwarding))
  {
    forall id | CrashSafeAt(derive, a.w, id) ensures CrashSafeAt(derive, w1, id) {
      assert id in w1.links && w1.links[id].panel ==> id in a.w.links && Recoverable(derive, a.w, id);
    }
    assert SafeBut(derive, a.w, w1, {} + a.staleSyncs);
    forall id | SteadyAt(derive, a, id) ensures SteadyAt(derive, a.(w := w1, forwarding := forwarding), id) {
      if id in a.ifaces && a.alive {
        assert Fresh(derive, a.w, a.ifaces[id].spec);
      }
    }
  }

  lemma DeletionKeeps(derive: Derive, iptables: bool, a: Standing, ids: set<int>)
    requires forall j :: j in a.ifaces ==> a.ifaces[j].spec.id == j
    ensures RunKept(derive, iptables, {}, true, false, a, a.(w := a.w.(links := a.w.links - ids)))
  {
    var w1 := a.w.(links := a.w.links - ids);
    OutsideKeeps(derive, iptables, a, w1, a.forwarding);
    if AllAccurate(a.w, iptables, a.ifaces) {
      forall id | id in a.ifaces ensures Accurate(w1, iptables, a.ifaces[id].spec) {
        assert Accurate(a.w, iptables, a.ifaces[id].spec);
      }
    }
  }

  /** One operation of a run. */
  method Step(m: Manager, op: Op)
    requires m.Valid()
    modifies m, m.host
    ensures m.Valid()
    ensures RunKept(m.host.derive, m.host.iptables, BadOp(m.host.derive, op), Quiet([op]), Alone([op]),
                    old(m.Now()), m.Now())
  {
    ghost var derive, iptables, before := m.host.derive, m.host.iptables, m.Now();
    match op {
      case Restart =>
        m.ifaces, m.host.alive := map[], true;
        RestartKeeps(derive, iptables, before);
      case LinksDeleted(ids) =>
        m.host.w := m.host.w.(links := m.host.w.links - ids);
        assert op in [op];
        DeletionKeeps(derive, iptables, before, ids);
      case Outside(world, forwarding) =>
        assert op in [op];
        if External(m.host.w, world) {
          m.host.w, m.host.forwarding := world, forwarding;
          OutsideKeeps(derive, iptables, before, world, forwarding);
        }
      case _ => Operate(m, op);
    }
  }

  /** An operation of the manager's own. */
  method Operate(m: Manager, op: Op)
    requires m.Valid() && (op.Ensure? || op.Reconcile? || op.Remove? || op.StopAll?)
    modifies m, m.host
    ensures m.Valid()
    ensures RunKept(m.host.derive, m.host.iptables, BadOp(m.host.derive, op), true, true, old(m.Now()), m.Now())
  {
    ghost var before := m.Now();
    match op {
      case Ensure(d) => var ok := m.Ensure(d);
      case Reconcile(desired) => m.Reconcile(desired);
      case Remove(id) => var ok := m.Remove(id);
      case StopAll => m.StopAll();
    }
    KeptInRun(m.host.derive, m.host.iptables, BadOp(m.host.derive, op), before, m.Now());
  }

  /** Any operations in any order; a panel that dies within one is started again after it. */
  method Run(m: Manager, ops: seq<Op>)
    requires m.Valid()
    modifies m, m.host
    ensures m.Valid()
    ensures RunKept(m.host.derive, m.host.iptables, Bad(m.host.derive, ops), Quiet(ops), Alone(ops),
                    old(m.Now()), m.Now())
  {
    ghost var derive, iptables, start := m.host.derive, m.host.iptables, m.Now();
    ghost var bad, quiet, alone := Bad(derive, ops), Quiet(ops), Alone(ops);
    for k := 0 to |ops|
      invariant m.Valid() && RunKept(derive, iptables, bad, quiet, alone, start, m.Now())
    {
      ghost var before := m.Now();
      Step(m, ops[k]);
      assert ops[k] in ops && BadOp(derive, ops[k]) <= bad;
      RunKeptTwice(derive, iptables, bad, quiet, alone, BadOp(derive, ops[k]), Quiet([ops[k]]), Alone([ops[k]]),
                   start, before, m.Now());
      if !m.host.alive {
        ghost var died := m.Now();
        Step(m, Restart);
        RunKeptTwice(derive, iptables, bad, quiet, alone, {}, true, true, start, died, m.Now());
      }
    }
  }

  /** The life of a panel on any host, through any operations, failures and crashes. A panel link
      that could be proved to be the panel's still can, but for ids of unsound inbounds and those
      at which a stale sync happened; and none happens at an id whose own rebuild has not failed.
      Unless others interfered, every managed interface is as its spec wants it if no command
      failed, the host forwards if a managed interface has an egress, and a link that was not
      provably the panel's at the start is untouched. */
  method Life(derive: Derive, iptables: bool, w: World, loaded: bool, forwarding: bool, ops: seq<Op>)
    returns (m: Manager)
    ensures m.host.derive == derive && m.host.iptables == iptables
    ensures SafeBut(derive, w, m.host.w, Bad(derive, ops) + m.staleSyncs)
    ensures forall id :: id !in Bad(derive, ops) && id !in m.failedRebuilds && CrashSafeAt(derive, w, id) ==>
      SteadyAt(derive, m.Now(), id)
    ensures Quiet(ops) && m.host.clean && m.host.alive ==> AllAccurate(m.host.w, iptables, m.ifaces)
    ensures Quiet(ops) ==> Unowned(m.host.w.forward) == Unowned(w.forward) && EgressOn(m.Now())
    ensures Alone(ops) ==> forall id :: id in w.links && !Recoverable(derive, w, id) ==>
      SameAt(w, m.host.w, id) && id !in m.ifaces
  {
    var host := new Host(derive, iptables, w, loaded, forwarding);
    m := new Manager(host);
    ghost var start := m.Now();
    Run(m, ops);
    assert forall id :: CrashSafeAt(derive, w, id) ==> SteadyAt(derive, start, id);
    assert forall id :: id in w.links && !Recoverable(derive, w, id) ==> Foreign(derive, start.w, start.ifaces, id);
  }

  // ---------------------------------------------------------------------------
  // Where the bookkeeping is wrong, and exactly when
  // ---------------------------------------------------------------------------

  /** A crash between the two halves of an in-place sync is survivable just when the live key
      is the new config's. */
  lemma WrittenIsSafeIff(derive: Derive, w: World, s: Spec)
    requires Sound(derive, s) && s.id in w.links && w.links[s.id].panel
    ensures CrashSafeAt(derive, Written(w, s.id, s.conf), s.id) <==> KeyFits(derive, w, s)
  {
  }

  /** The manager lists `was` while the link and the file are b's, as a rebuild for b leaves it
      when its egress fails (`RebuildHalts`). A change of was's peers then walks into the trap, and
      a crash in the middle of it loses the link, just when b has another key than was. */
  lemma StaleEntryLosesLink(derive: Derive, w0: World, w1: World, m: map<int, Managed>, b: Spec, s: Spec)
    requires HalfRebuilt(derive, w0, w1, b) && b.id in m && s.id == b.id && Sound(derive, s)
    requires s.structFP == m[b.id].spec.structFP && s.conf != m[b.id].spec.conf
    ensures StaleTrap(derive, w1, m, s) <==> ConfigPublicKey(derive, s.conf) != ConfigPublicKey(derive, b.conf)
    ensures CrashSafeAt(derive, Written(w1, s.id, s.conf), s.id) <==> !StaleTrap(derive, w1, m, s)
  {
    WrittenIsSafeIff(derive, w1, s);
  }

  /** Going back to the listed spec does nothing at all and reports success; the host is as that
      spec wants it only if b asked for the same config, addresses and MTU. */
  lemma RevertIsSilent(derive: Derive, iptables: bool, w0: World, w1: World, m: map<int, Managed>, b: Spec)
    requires HalfRebuilt(derive, w0, w1, b) && b.id in m && m[b.id].spec.id == b.id
    ensures Repeats(w1, m, m[b.id].spec)
    ensures Converged(w1, iptables, m[b.id].spec) ==> m[b.id].spec.conf == b.conf && m[b.id].spec.mtu == b.mtu
  {
  }

  /** Two settings of one inbound whose keys differ. */
  predicate OtherKey(derive: Derive, a: Desired, b: Desired) {
    && SpecOf(a).Ok? && SpecOf(b).Ok? && a.inst.id == b.inst.id
    && derive(a.inst.privateKey) != derive(b.inst.privateKey)
  }

  /** The same settings but for the peers, and these print another config. */
  predicate OtherPeers(a: Desired, a2: Desired) {
    && SpecOf(a).Ok? && SpecOf(a2).Ok? && a2 == a.(inst := a.inst.(peers := a2.inst.peers))
    && SpecOf(a2).value.conf != SpecOf(a).value.conf
  }

  lemma KeyOfSpec(derive: Derive, d: Desired)
    requires SpecOf(d).Ok?
    ensures ConfigPublicKey(derive, SpecOf(d).value.conf) == derive(d.inst.privateKey)
  {
    SpecConf(d);
    SoundText(derive, d.inst);
  }

  lemma OtherKeyOtherPrint(derive: Derive, a: Desired, b: Desired)
    requires OtherKey(derive, a, b) && SoundDesired(derive, a) && SoundDesired(derive, b)
    ensures SpecOf(a).value.structFP != SpecOf(b).value.structFP && SpecOf(a).value.conf != SpecOf(b).value.conf
  {
    var s, u := SpecOf(a).value, SpecOf(b).value;
    SpecFacts(derive, a, s);
    SpecFacts(derive, b, u);
    SoundSpec(derive, a);
    SoundSpec(derive, b);
    KeyOfSpec(derive, a);
    KeyOfSpec(derive, b);
    if s.structFP == u.structFP {
      StructuralTextInjective(s.conf, s.addresses, s.mtu, u.conf, u.addresses, u.mtu);
      SameSectionSameKey(s.conf, u.conf, OwnedInterfaceName(s.id));
    }
  }

  /** Peers are no part of the fingerprint. */
  lemma OtherPeersSamePrint(a: Desired, a2: Desired)
    requires OtherPeers(a, a2)
    ensures SpecOf(a2).value.structFP == SpecOf(a).value.structFP && SpecOf(a2).value.id == SpecOf(a).value.id
  {
    SpecConf(a);
    SpecConf(a2);
    SectionIgnoresPeers(a.inst, a2.inst);
  }

  /** Three specs of one inbound: `other` is for another key, `next` differs from `was` in its
      peers alone. */
  predicate Trio(derive: Derive, was: Spec, other: Spec, next: Spec) {
    && was.id == other.id == next.id && next.structFP == was.structFP != other.structFP
    && next.conf != was.conf && other.conf != was.conf && Sound(derive, next)
    && ConfigPublicKey(derive, next.conf) != ConfigPublicKey(derive, other.conf)
  }

  lemma TrioOf(derive: Derive, a: Desired, b: Desired, a2: Desired)
    requires SoundDesired(derive, a) && SoundDesired(derive, b) && SoundDesired(derive, a2)
    requires OtherKey(derive, a, b) && OtherPeers(a, a2)
    ensures Trio(derive, SpecOf(a).value, SpecOf(b).value, SpecOf(a2).value)
  {
    OtherKeyOtherPrint(derive, a, b);
    OtherPeersSamePrint(a, a2);
    SpecConf(a);
    SpecConf(b);
    KeyOfSpec(derive, b);
    KeyOfSpec(derive, a2);
    SoundSpec(derive, a2);
  }

  lemma StaleAfter(derive: Derive, iptables: bool, w0: World, w1: World, m: map<int, Managed>,
                   was: Spec, other: Spec, next: Spec)
    requires Trio(derive, was, other, next) && HalfRebuilt(derive, w0, w1, other)
    requires was.id in m && m[was.id].spec == was
    ensures !CrashSafeAt(derive, Written(w1, was.id, next.conf), was.id)
    ensures Repeats(w1, m, was) && !Converged(w1, iptables, was)
  {
    StaleEntryLosesLink(derive, w0, w1, m, other, next);
    RevertIsSilent(derive, iptables, w0, w1, m, other);
  }

  /** The first push of StaleEntry. */
  method EnsureSteady(m: Manager, d: Desired, s: Spec) returns (ok: bool)
    requires m.Valid() && SpecOf(d) == Ok(s) && SoundDesired(m.host.derive, d) && s.id !in m.failedRebuilds
    requires SteadyAt(m.host.derive, m.Now(), s.id)
    modifies m, m.host
    ensures m.Valid() && (m.host.clean ==> old(m.host.clean)) && s.id == d.inst.id
    ensures m.calls == After(old(m.calls), s, m.AnswerOf(ok))
    ensures ok ==> s.id in m.ifaces && m.ifaces[s.id].spec == s && SteadyAt(m.host.derive, m.Now(), s.id)
    ensures m.host.alive && m.host.clean ==> (ok <==> Accepts(m.host.derive, old(m.host.w), old(m.ifaces), s.id))
    ensures m.host.alive && m.host.clean && AccurateNow(m.host.iptables, old(m.Now())) ==>
      (ok ==> Converged(m.host.w, m.host.iptables, s))
    ensures m.host.alive ==> old(m.host.alive)
  {
    SpecFacts(m.host.derive, d, s);
    ghost var before := m.Now();
    ok := m.EnsureBuilt(d, s);
    if ok {
      SteadyOn(m.host.derive, before, m.Now(), s.id);
      ConvergedOn(m.host.derive, m.host.iptables, {}, before, m.Now(), s);
    }
  }

  lemma SteadyOn(derive: Derive, a: Standing, b: Standing, id: int)
    requires SteadyBut(derive, a, b, {}) && SteadyAt(derive, a, id) && id !in b.failedRebuilds
    ensures SteadyAt(derive, b, id)
  {
  }

  lemma ConvergedOn(derive: Derive, iptables: bool, bad: set<int>, a: Standing, b: Standing, s: Spec)
    requires KeptAt(derive, iptables, bad, a, b) && s.id in b.ifaces && b.ifaces[s.id].spec == s
    requires b.alive && b.clean ==> s.id in b.w.links
    ensures b.alive && b.clean && AccurateNow(iptables, a) ==> Converged(b.w, iptables, s)
  {
  }

  /** The second: a rebuild of a managed link. When the egress fails, the link and the config are
      new under the old entry. */
  method EnsureHalting(m: Manager, d: Desired, s: Spec) returns (ok: bool)
    requires m.Valid() && SpecOf(d) == Ok(s) && SoundDesired(m.host.derive, d)
    requires SteadyAt(m.host.derive, m.Now(), s.id) && s.id in m.ifaces && m.ifaces[s.id].spec.structFP != s.structFP
    modifies m, m.host
    ensures m.Valid() && m.calls == After(old(m.calls), s, m.AnswerOf(ok))
    ensures m.host.alive && m.host.egressFailures != old(m.host.egressFailures) ==>
      && CrashSafeAt(m.host.derive, m.host.w, s.id) && m.ifaces == old(m.ifaces) && !ok
      && HalfRebuilt(m.host.derive, old(m.host.w), m.host.w, s)
    ensures m.host.alive && m.host.clean && Converged(old(m.host.w), m.host.iptables, old(m.ifaces)[s.id].spec) ==>
      ok && Converged(m.host.w, m.host.iptables, s)
    ensures (m.host.clean ==> old(m.host.clean)) && (m.host.alive ==> old(m.host.alive))
  {
    SpecFacts(m.host.derive, d, s);
    ghost var before, w0, m0 := m.Now(), m.host.w, m.ifaces;
    if m.host.alive && Converged(w0, m.host.iptables, m0[s.id].spec) {
      ListedAccepted(m.host.derive, m.host.iptables, w0, m0, s);
    }
    ok := m.EnsureBuilt(d, s);
    StillSafe(m.host.derive, before, m.Now(), s);
  }

  /** No stale sync happens where the fingerprint changes. */
  lemma StillSafe(derive: Derive, a: Standing, b: Standing, s: Spec)
    requires SafeBut(derive, a.w, b.w, {} + b.staleSyncs) && SteadyAt(derive, a, s.id) && StaleGrows(derive, a, b, s)
    requires s.id in a.ifaces && a.ifaces[s.id].spec.structFP != s.structFP
    ensures CrashSafeAt(derive, b.w, s.id)
  {
  }

  /** Where a managed interface is as its entry says, a change of its settings is accepted and
      converges. */
  lemma ListedAccepted(derive: Derive, iptables: bool, w: World, m: map<int, Managed>, s: Spec)
    requires s.id in m && m[s.id].spec.id == s.id && WellFormed(m[s.id].spec) && WellFormed(s)
    requires Converged(w, iptables, m[s.id].spec) && Fresh(derive, w, m[s.id].spec)
    ensures Accepts(derive, w, m, s.id) && WillConverge(w, m, iptables, s)
  {
    AccurateConverges(w, m, iptables, s);
  }

  /** The link is crash safe now and will not be halfway through a sync to `next`; going back to
      `was` does nothing, although the host is not as it wants. */
  predicate Trapped(derive: Derive, iptables: bool, w: World, m: map<int, Managed>, was: Spec, next: Spec) {
    && CrashSafeAt(derive, w, was.id) && !CrashSafeAt(derive, Written(w, was.id, next.conf), was.id)
    && Repeats(w, m, was) && !Converged(w, iptables, was)
  }

  method PushOther(m: Manager, b: Desired, was: Spec, other: Spec, next: Spec) returns (ghost y: Answer)
    requires m.Valid() && SpecOf(b) == Ok(other) && SoundDesired(m.host.derive, b)
    requires Trio(m.host.derive, was, other, next)
    requires SteadyAt(m.host.derive, m.Now(), was.id) && was.id in m.ifaces && m.ifaces[was.id].spec == was
    modifies m, m.host
    ensures m.Valid() && m.calls == After(old(m.calls), other, y)
    ensures m.host.alive && m.host.clean && Converged(old(m.host.w), m.host.iptables, was) ==>
      y.Succeeded? && Converged(m.host.w, m.host.iptables, other)
    ensures y.EgressFailed? && m.host.alive ==>
      Trapped(m.host.derive, m.host.iptables, m.host.w, m.ifaces, was, next)
    ensures (m.host.clean ==> old(m.host.clean)) && (m.host.alive ==> old(m.host.alive))
  {
    ghost var w0, failures := m.host.w, m.host.egressFailures;
    var ok := EnsureHalting(m, b, other);
    y := m.AnswerOf(ok);
    if m.host.alive && m.host.egressFailures != failures {
      StaleAfter(m.host.derive, m.host.iptables, w0, m.host.w, m.ifaces, was, other, next);
    }
  }

  method PushTwo(m: Manager, a: Desired, b: Desired, was: Spec, other: Spec, next: Spec)
    requires m.Valid() && SteadyAt(m.host.derive, m.Now(), was.id) && was.id !in m.failedRebuilds
    requires SpecOf(a) == Ok(was) && SoundDesired(m.host.derive, a)
    requires SpecOf(b) == Ok(other) && SoundDesired(m.host.derive, b) && Trio(m.host.derive, was, other, next)
    requires Accepts(m.host.derive, m.host.w, m.ifaces, was.id) && AccurateNow(m.host.iptables, m.Now())
    modifies m, m.host
    ensures m.Valid()
    ensures m.host.alive && m.host.clean ==>
      && m.calls == After(After(old(m.calls), was, Succeeded), other, Succeeded)
      && Converged(m.host.w, m.host.iptables, other)
    ensures m.calls == After(After(old(m.calls), was, Succeeded), other, EgressFailed) && m.host.alive ==>
      Trapped(m.host.derive, m.host.iptables, m.host.w, m.ifaces, was, next)
  {
    var first := EnsureSteady(m, a, was);
    if first {
      ghost var y := PushOther(m, b, was, other, next);
    }
  }

  /** Two pushes: a, then b for another key. Without failures both succeed and the host ends as b
      wants it. When the first succeeds and in the second the egress fails, a change of a's peers
      is one crash away from losing the link, although the link is crash safe now and every inbound
      is sound; and pushing a again does nothing, although the host is not as a wants it. */
  method StaleEntry(m: Manager, a: Desired, b: Desired, a2: Desired)
    requires m.Valid() && SteadyAt(m.host.derive, m.Now(), a.inst.id) && a.inst.id !in m.failedRebuilds
    requires SoundDesired(m.host.derive, a) && SoundDesired(m.host.derive, b) && SoundDesired(m.host.derive, a2)
    requires OtherKey(m.host.derive, a, b) && OtherPeers(a, a2)
    requires Accepts(m.host.derive, m.host.w, m.ifaces, a.inst.id) && AccurateNow(m.host.iptables, m.Now())
    modifies m, m.host
    ensures m.Valid()
    ensures m.host.alive && m.host.clean ==>
      && m.calls == After(After(old(m.calls), SpecOf(a).value, Succeeded), SpecOf(b).value, Succeeded)
      && Converged(m.host.w, m.host.iptables, SpecOf(b).value)
    ensures m.calls == After(After(old(m.calls), SpecOf(a).value, Succeeded), SpecOf(b).value, EgressFailed)
            && m.host.alive ==>
      Trapped(m.host.derive, m.host.iptables, m.host.w, m.ifaces, SpecOf(a).value, SpecOf(a2).value)
  {
    TrioOf(m.host.derive, a, b, a2);
    SpecConf(a);
    PushTwo(m, a, b, SpecOf(a).value, SpecOf(b).value, SpecOf(a2).value);
  }

  function Plain(): Obfuscation20 {
    Obfuscation20(0, 0, 0, 0, 0, 0, 0, "", "", "", "", "", "", "", "", "", "", "", "", "", "", "", "", false, false)
  }

  /** Inbound 1 with this private key and these peers, on 10.0.0.1/24. */
  function Inbound(key: string, peers: seq<Peer>): Desired {
    Desired(Instance(1, 51820, "", key, ["10.0.0.1/24"], 0, Plain(), peers, "", false, ""),
            Some([Prefix(10, 0, 0, 1, 24)]), "", "eth0", true)
  }

  const PHONE := Peer("phone", "k1", "", ["10.0.0.2/32"], "")

  lemma InboundAccepted(key: string, peers: seq<Peer>)
    requires key != "" && CleanValue(key) && peers in {[], [PHONE]}
    ensures SpecOf(Inbound(key, peers)).Ok?
  {
    var d := Inbound(key, peers);
    assert OwnedInterfaceName(1) == "xui-awg" + Dec(1) && Dec(1) == "1";
    assert CleanValue("") && CleanValue("phone") && CleanValue("k1") && CleanValue("10.0.0.2/32");
    assert TrimSpace("") == "";
  }

  /** Real settings for StaleEntry: two keys and one new peer. */
  lemma StaleEntryInputs(derive: Derive, keyA: string, keyB: string)
    requires keyA != "" && keyB != "" && CleanValue(keyA) && CleanValue(keyB)
    requires derive(keyA).Some? && derive(keyB).Some? && derive(keyA) != derive(keyB)
    ensures var a, b, a2 := Inbound(keyA, []), Inbound(keyB, []), Inbound(keyA, [PHONE]);
      && SoundDesired(derive, a) && SoundDesired(derive, b) && SoundDesired(derive, a2)
      && OtherKey(derive, a, b) && OtherPeers(a, a2)
  {
    InboundAccepted(keyA, []);
    InboundAccepted(keyB, []);
    InboundAccepted(keyA, [PHONE]);
    PhoneIsSound();
    PhonePrints(keyA);
  }

  lemma PhoneIsSound()
    ensures NamesAddresses(PHONE)
  {
    assert Join(["10.0.0.2/32"], ", ") == "10.0.0.2/32";
  }

  lemma PhonePrints(key: string)
    requires SpecOf(Inbound(key, [])).Ok? && SpecOf(Inbound(key, [PHONE])).Ok?
    ensures SpecOf(Inbound(key, [PHONE])).value.conf != SpecOf(Inbound(key, [])).value.conf
  {
    var head := HeadLines(Inbound(key, []).inst);
    SpecConf(Inbound(key, []));
    SpecConf(Inbound(key, [PHONE]));
    assert [PHONE][..0] == [];
    assert AllPeerLines([PHONE]) == AllPeerLines([]) + PeerLines(PHONE);
    assert AllPeerLines([PHONE]) == PeerLines(PHONE) && PeerLines(PHONE) != [];
    UnlinesAppend(head, PeerLines(PHONE));
    assert head + [] == head;
  }

  /** The config written and the link just added. */
  function JustAdded(w: World, s: Spec, mtu: int): World {
    Written(w, s.id, s.conf).(links := w.links[s.id := Link(true, 0, Keyless, "", [], mtu, false)])
  }

  lemma KeylessRecoverable(derive: Derive, w: World, s: Spec, mtu: int)
    ensures Recoverable(derive, JustAdded(w, s, mtu), s.id) <==> Sound(derive, s)
  {
  }

  /** A link just added has no key; a crash there is survivable just when the spec is sound. */
  lemma KeylessRecoverableIff(derive: Derive, w: World, d: Desired, mtu: int)
    requires SpecOf(d).Ok?
    ensures Recoverable(derive, JustAdded(w, SpecOf(d).value, mtu), SpecOf(d).value.id) <==> SoundDesired(derive, d)
  {
    SoundSpec(derive, d);
    KeylessRecoverable(derive, w, SpecOf(d).value, mtu);
  }
}
