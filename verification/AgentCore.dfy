/** The agent's core supervisor: it applies pushed configs, goes back to the previous one when a
    new one does not start, stores the last good one, and brings a dead core back with a growing
    wait. */
module AgentCore {
  import opened Text

  /** Times and waits are in milliseconds. */
  const SECOND := 1000
  const MAX_BACKOFF := 60 * SECOND

  /** A config the core runs, or last ran. */
  datatype Applied = Applied(revision: string, restart: bool, body: string)

  datatype Saved = Saved(body: string, restart: bool)

  datatype Disk = Nothing | Unreadable | LastGood(saved: Saved)

  /** The core processes ever launched: which still run, which ended by themselves, the config each
      is taken to have and the one it really serves, those left half changed by a failed hot apply,
      and those whose stop failed. */
  datatype Cores = Cores(
    running: set<nat>, died: set<nat>, config: map<nat, string>, serves: map<nat, string>,
    mixed: set<nat>, unstopped: set<nat>, launched: nat)

  /** Some cores have ended by themselves, and nothing else happened. */
  ghost predicate Aged(a: Cores, b: Cores) {
    && b == a.(running := b.running, died := b.died)
    && b.running <= a.running && a.died <= b.died && a.running - b.running <= b.died
  }

  ghost predicate AllLaunched(c: Cores) {
    forall p :: p in c.config || p in c.running || p in c.mixed || p in c.unstopped ==> p < c.launched
  }

  /** A try to bring up a core: its config, and whether it got as far as serving. */
  datatype Attempt = Attempt(body: string, ready: bool)

  /** What can go wrong with a push: no folder for the logs, a config the core's own check refuses,
      a core that does not get as far as serving, a save that fails before its rename or after. */
  datatype Fault = Folder | Rejected | NotReady | SaveEarly(saved: Saved) | SaveLate(saved: Saved)

  // ---------------------------------------------------------------------------
  // The machine
  // ---------------------------------------------------------------------------

  /** Everything outside the supervisor. Each call may fail, and a core may die at any time. */
  class Machine {
    /** A body prepareConfig accepts. */
    const prepares: string -> bool
    /** An empty hot diff between two configs. */
    const same: (string, string) -> bool
    /** The hot diff drops users. */
    const drops: (string, string) -> bool
    var c: Cores
    var disk: Disk
    /** The disk has a config whose save was reported as failed. */
    ghost var ahead: bool
    /** Every try to bring up a core, in order. */
    ghost var launches: seq<Attempt>
    /** Every hot apply tried, and whether it took. */
    ghost var hots: seq<Attempt>
    /** Every config the core itself was asked to check, and whether it accepted it. */
    ghost var tests: seq<Attempt>
    /** Everything that went wrong, in order. */
    ghost var faults: seq<Fault>
    /** What was on disk to begin with. */
    ghost const found: Disk

    constructor (prepares: string -> bool, same: (string, string) -> bool, drops: (string, string) -> bool, disk: Disk)
      ensures this.prepares == prepares && this.same == same && this.drops == drops && this.disk == disk && !ahead
      ensures c == Cores({}, {}, map[], map[], {}, {}, 0) && launches == [] && hots == [] && faults == []
      ensures tests == [] && found == disk
    {
      this.prepares, this.same, this.drops, this.disk, ahead := prepares, same, drops, disk, false;
      c, launches, hots, faults := Cores({}, {}, map[], map[], {}, {}, 0), [], [], [];
      tests, found := [], disk;
    }

    /** The core accepted the config, or had, if its own last life left it on disk. */
    ghost predicate Vetted(body: string)
      reads this
    {
      Attempt(body, true) in tests || (found.LastGood? && found.saved.body == body)
    }

    /** testConfig: the core checks the config itself; running it for that may fail, too. */
    method TestConfig(body: string) returns (ok: bool)
      modifies `tests, `faults
      ensures tests == old(tests) + [Attempt(body, ok)]
      ensures faults == if ok then old(faults) else old(faults) + [Rejected]
    {
      ok := *;
      tests := tests + [Attempt(body, ok)];
      faults := if ok then faults else faults + [Rejected];
    }

    method IsRunning(p: nat) returns (b: bool)
      modifies `c
      ensures Aged(old(c), c) && b == (p in c.running)
    {
      var gone: set<nat> := *;
      c := c.(running := c.running - gone, died := c.died + c.running * gone);
      b := p in c.running;
    }

    /** The process may fail to start at all. */
    method Launch(body: string) returns (p: Option<nat>)
      modifies `c, `launches
      ensures launches == old(launches) + [Attempt(body, false)]
      ensures p.None? ==> c == old(c)
      ensures p.Some? ==>
        && p.value == old(c).launched
        && c == old(c).(running := old(c).running + {p.value}, config := old(c).config[p.value := body],
                        serves := old(c).serves[p.value := body], launched := p.value + 1)
    {
      launches := launches + [Attempt(body, false)];
      if * {
        return None;
      }
      p := Some(c.launched);
      c := c.(running := c.running + {p.value}, config := c.config[p.value := body],
              serves := c.serves[p.value := body], launched := p.value + 1);
    }

    /** The API port opened and the core stayed up a moment after it. */
    method WaitReady(p: nat) returns (ok: bool)
      requires launches != []
      modifies `c, `launches
      ensures launches == AsReady(old(launches), ok)
      ensures Aged(old(c), c) && (ok ==> p in c.running)
    {
      var up := IsRunning(p);
      var answered: bool := *;
      ok := up && answered;
      launches := AsReady(launches, ok);
    }

    /** The last try got as far as serving, or not. */
    static function AsReady(s: seq<Attempt>, ok: bool): seq<Attempt>
      requires s != []
    {
      s[..|s| - 1] + [s[|s| - 1].(ready := ok)]
    }

    method Stop(p: nat)
      modifies `c
      ensures c == old(c).(running := c.running, unstopped := c.unstopped)
      ensures c.running <= old(c).running && old(c).unstopped <= c.unstopped <= old(c).unstopped + {p}
      ensures p in c.running ==> p in c.unstopped
    {
      if * {
        c := c.(running := c.running - {p});
      } else {
        c := c.(unstopped := c.unstopped + {p});
      }
    }

    /** A new core process that got as far as serving; one that did not is stopped again. */
    method StartCore(body: string) returns (p: Option<nat>)
      modifies `c, `launches, `faults
      ensures launches == old(launches) + [Attempt(body, p.Some?)]
      ensures faults == if p.Some? then old(faults) else old(faults) + [NotReady]
      ensures c.running <= old(c).running + {old(c).launched} && old(c).died <= c.died
      ensures old(c).unstopped <= c.unstopped && c.mixed == old(c).mixed
      ensures forall q :: q in c.running ==> q in old(c).running || p == Some(q) || q in c.unstopped
      ensures forall q :: q in c.running || q in c.unstopped ==>
        q in old(c).running || q in old(c).unstopped || (q == old(c).launched && c.launched == q + 1)
      ensures if c.launched == old(c).launched then c.config == old(c).config && c.serves == old(c).serves
        else
          && c.launched == old(c).launched + 1 && c.config == old(c).config[old(c).launched := body]
          && c.serves == old(c).serves[old(c).launched := body]
      ensures p.Some? ==> p.value == old(c).launched && c.launched == p.value + 1
    {
      p := Launch(body);
      if p.Some? {
        var ready := WaitReady(p.value);
        if !ready {
          var up := IsRunning(p.value);
          if up {
            Stop(p.value);
          }
          p := None;
        }
      }
      faults := if p.Some? then faults else faults + [NotReady];
    }

    /** ApplyHot on a running core; a failure may leave part of the change in place. A diff
        that must not be applied hot is refused untouched. */
    method ApplyHot(p: nat, body: string, restartInstead: bool) returns (ok: bool)
      modifies `c, `hots
      ensures restartInstead ==> !ok
      ensures hots == if restartInstead then old(hots) else old(hots) + [Attempt(body, ok)]
      ensures ok ==> c == old(c).(config := old(c).config[p := body], serves := old(c).serves[p := body])
      ensures !ok ==> c == old(c) || c == old(c).(mixed := old(c).mixed + {p})
    {
      if restartInstead {
        return false;
      }
      ok := *;
      hots := hots + [Attempt(body, ok)];
      if ok {
        c := c.(config := c.config[p := body], serves := c.serves[p := body]);
      } else if * {
        c := c.(mixed := c.mixed + {p});
      }
    }

    method SetConfig(p: nat, body: string)
      modifies `c
      ensures c == old(c).(config := old(c).config[p := body])
    {
      c := c.(config := c.config[p := body]);
    }

    /** SaveLastGood: an atomic replace. The file is in place once it is renamed; syncing the
        folder after that can still fail. */
    method SaveLastGood(saved: Saved) returns (ok: bool)
      modifies `disk, `ahead, `faults
      ensures ok ==> disk == LastGood(saved) && !ahead && faults == old(faults)
      ensures !ok ==>
        || (faults == old(faults) + [SaveEarly(saved)] && disk == old(disk) && ahead == old(ahead))
        || (faults == old(faults) + [SaveLate(saved)] && disk == LastGood(saved) && ahead)
    {
      if * {
        faults := faults + [SaveEarly(saved)];
        return false;
      }
      disk, ahead := LastGood(saved), true;
      if * {
        faults := faults + [SaveLate(saved)];
        return false;
      }
      ahead := false;
      ok := true;
    }

    /** LastGood; an empty stored body is unreadable. */
    method ReadLastGood() returns (r: Disk)
      ensures r == if disk.LastGood? && disk.saved.body == "" then Unreadable else disk
    {
      r := disk;
      if disk.LastGood? && disk.saved.body == "" {
        r := Unreadable;
      }
    }
  }

  // ---------------------------------------------------------------------------
  // Backoff
  // ---------------------------------------------------------------------------

  function Min(a: int, b: int): int { if a < b then a else b }

  function Pow2(n: nat): (p: nat)
    ensures p > 0
  {
    if n == 0 then 1 else 2 * Pow2(n - 1)
  }

  /** The wait after the n-th failed start in a row. */
  function Wait(n: nat): nat {
    if n == 0 then 0 else Min(Pow2(n - 1) * SECOND, MAX_BACKOFF)
  }

  function NextBackoff(backoff: nat): nat { Min(if 2 * backoff < SECOND then SECOND else 2 * backoff, MAX_BACKOFF) }

  /** Doubling the last wait gives the closed form, cap included. */
  lemma WaitDoubles(n: nat)
    ensures NextBackoff(Wait(n)) == Wait(n + 1)
  {
    if n > 0 {
      assert Pow2(n) == 2 * Pow2(n - 1);
    }
  }

  /** One, two, four, up to thirty-two seconds, then a minute for good. */
  lemma {:induction false} WaitCapped(n: nat)
    ensures n < 6 ==> Wait(n + 1) == Pow2(n) * SECOND < MAX_BACKOFF
    ensures n >= 6 ==> Wait(n + 1) == MAX_BACKOFF
  {
    if n < 6 {
      assert Pow2(5) == 32 && Pow2(4) == 16 && Pow2(3) == 8 && Pow2(2) == 4 && Pow2(1) == 2;
    } else if n == 6 {
      assert Pow2(6) == 2 * Pow2(5) && Pow2(5) == 2 * Pow2(4) && Pow2(4) == 2 * Pow2(3) && Pow2(3) == 2 * Pow2(2) == 8;
    } else {
      WaitCapped(n - 1);
    }
  }

  // ---------------------------------------------------------------------------
  // The supervisor
  // ---------------------------------------------------------------------------

  datatype Mode = Noop | Hot | Restarted

  /** What Apply answers: an error that left the previous config in place, a config that runs
      but is not stored, or success. */
  datatype Outcome = NotApplied | NotSaved | Done(mode: Mode)

  ghost predicate Injective(rev: (string, bool) -> string) {
    forall b, r, b2, r2 :: rev(b, r) == rev(b2, r2) ==> b == b2 && r == r2
  }

  ghost predicate Equivalence(same: (string, string) -> bool) {
    && (forall a :: same(a, a))
    && (forall a, b, c :: same(a, b) && same(b, c) ==> same(a, c))
  }

  class Core {
    const machine: Machine
    /** RevisionOf: a digest of the body and the restart policy. */
    const rev: (string, bool) -> string
    var process: Option<nat>
    var current: Option<Applied>
    var savedRev: string
    var closed: bool
    var retryAt: int
    var backoff: nat
    /** Every config some core was serving, in this life or the one that stored the disk's. */
    ghost var served: set<Applied>
    /** Failed starts of the supervisor since a core last started. */
    ghost var failures: nat

    constructor (machine: Machine, rev: (string, bool) -> string)
      requires machine.c == Cores({}, {}, map[], map[], {}, {}, 0) && !machine.ahead
      requires machine.launches == [] && machine.disk == machine.found
      ensures this.machine == machine && this.rev == rev && Valid()
      ensures process.None? && current.None? && !closed && failures == 0
    {
      this.machine, this.rev := machine, rev;
      process, current, savedRev, closed, retryAt, backoff := None, None, "", false, 0, 0;
      var disk := machine.disk;
      served := if disk.LastGood? then {AppliedOf(rev, disk.saved.body, disk.saved.restart)} else {};
      failures := 0;
    }

    static function AppliedOf(rev: (string, bool) -> string, body: string, restart: bool): Applied {
      Applied(rev(body, restart), restart, body)
    }

    predicate IsApplied(a: Applied) { a == AppliedOf(rev, a.body, a.restart) }

    /** The disk brings this revision back after a reboot. */
    predicate Stored(revision: string)
      reads machine
    {
      machine.disk.LastGood? && rev(machine.disk.saved.body, machine.disk.saved.restart) == revision
    }

    /** The recorded process has the current config and serves it, whole. */
    ghost predicate RunsCurrent()
      reads this, machine
    {
      process.Some? ==>
        && current.Some? && current.value in served
        && process.value in machine.c.config && machine.c.config[process.value] == current.value.body
        && process.value in machine.c.serves && machine.same(machine.c.serves[process.value], current.value.body)
        && process.value !in machine.c.mixed
    }

    /** No core runs beside the recorded one, except those that would not stop. */
    predicate OneCore()
      reads this, machine
    {
      forall p :: p in machine.c.running ==> process == Some(p) || p in machine.c.unstopped
    }

    /** savedRev names what is stored, until a save fails after its rename. */
    ghost predicate SavedIsStored()
      reads this, machine
    {
      savedRev != "" ==> (Stored(savedRev) <==> !machine.ahead)
    }

    /** Nothing was ever launched, is current or is stored that the core had not accepted. */
    ghost predicate AllVetted()
      reads this, machine
    {
      && (forall a :: a in machine.launches ==> machine.Vetted(a.body))
      && (current.Some? ==> machine.Vetted(current.value.body))
      && (machine.disk.LastGood? ==> machine.Vetted(machine.disk.saved.body))
    }

    ghost predicate OnlyServedStored()
      reads this, machine
    {
      machine.disk.LastGood? ==> AppliedOf(rev, machine.disk.saved.body, machine.disk.saved.restart) in served
    }

    /** An empty hot diff relates equivalent configs, and a digest is never empty. */
    ghost predicate Lawful() { Equivalence(machine.same) && forall b, r :: rev(b, r) != "" }

    ghost predicate Valid()
      reads this, machine
    {
      Settled() && RunsCurrent()
    }

    /** Valid, but for what the recorded process is running. */
    ghost predicate Settled()
      reads this, machine
    {
      && (current.Some? ==> IsApplied(current.value) && current.value in served)
      && (machine.ahead ==> current.Some?)
      && AllLaunched(machine.c)
      && OneCore() && SavedIsStored() && OnlyServedStored() && AllVetted()
      && backoff == Wait(failures)
    }

    /** Launches a core with a and waits until it is serving. */
    method Start(a: Applied) returns (ok: bool)
      requires Lawful() && Valid() && IsApplied(a) && (process.Some? ==> process.value !in machine.c.running)
      requires machine.Vetted(a.body)
      modifies this, machine`c, machine`launches, machine`faults
      ensures Valid() && machine.launches == old(machine.launches) + [Attempt(a.body, ok)]
      ensures machine.faults == if ok then old(machine.faults) else old(machine.faults) + [NotReady]
      ensures machine.c.running <= old(machine.c).running + {old(machine.c).launched}
      ensures old(machine.c).died <= machine.c.died
      ensures savedRev == old(savedRev) && closed == old(closed) && old(served) <= served
      ensures ok ==> process.Some? && current == Some(a) && failures == 0 && retryAt == 0
      ensures !ok ==> process == old(process) && current == old(current) && served == old(served)
      ensures !ok ==> failures == old(failures) && retryAt == old(retryAt)
    {
      var p := machine.StartCore(a.body);
      if p.None? {
        return false;
      }
      ok := true;
      process, current := Some(p.value), Some(a);
      backoff, retryAt := 0, 0;
      failures, served := 0, served + {a};
    }

    method StopProcess()
      requires Settled()
      modifies this, machine`c
      ensures Valid() && process.None? && old(machine.c).died <= machine.c.died
      ensures current == old(current) && savedRev == old(savedRev) && closed == old(closed) && served == old(served)
      ensures failures == old(failures) && retryAt == old(retryAt)
    {
      var p := process;
      process := None;
      if p.Some? {
        var up := machine.IsRunning(p.value);
        if up {
          machine.Stop(p.value);
        }
      }
    }

    predicate Up(p: Option<nat>)
      reads this, machine
    {
      p.Some? && p.value in machine.c.running
    }

    method Running() returns (b: bool)
      requires Valid()
      modifies machine`c
      ensures Aged(old(machine.c), machine.c)
      ensures Valid() && (b ==> process.Some?) && b == Up(process)
    {
      b := false;
      if process.Some? {
        b := machine.IsRunning(process.value);
      }
    }

    /** The cores brought up when one is replaced: the next config's, and the previous one's again
        when the next does not start and is not the same revision. */
    static function Replacing(prev: Option<Applied>, next: Applied, ok: bool, back: bool): seq<Attempt> {
      if !ok && prev.Some? && prev.value.revision != next.revision then
        [Attempt(next.body, false), Attempt(prev.value.body, back)]
      else [Attempt(next.body, ok)]
    }

    /** There was a core, and it has not ended by itself since. */
    twostate predicate Lived()
      reads this, machine
    {
      old(process).Some? && old(process).value in old(machine.c.running) && old(process).value !in machine.c.died
    }

    /** The hot diff to a config that must not have users dropped on a running core drops some. */
    predicate NeedsRestart(cur: Applied, body: string, restart: bool) { restart && machine.drops(cur.body, body) }

    /** Where a core lives, an empty diff costs nothing, and it is replaced only for a diff that must
        not be applied hot or after a hot apply that failed. */
    twostate predicate Spared(body: string, restart: bool, replaced: bool)
      reads this, machine
      requires Lived() ==> old(current).Some?
    {
      Lived() ==>
        && (machine.same(old(current).value.body, body) ==> !replaced && machine.hots == old(machine.hots))
        && (replaced ==> NeedsRestart(old(current).value, body, restart) ||
                         machine.hots == old(machine.hots) + [Attempt(body, false)])
    }

    method SetCurrent(a: Applied)
      modifies `current, `served
      ensures current == Some(a) && served == old(served) + {a}
    {
      current, served := Some(a), served + {a};
    }

    /** The two ways to keep the running core: nothing to do, or a hot apply. */
    method Reuse(next: Applied) returns (mode: Option<Mode>)
      requires Lawful() && Valid() && IsApplied(next) && machine.Vetted(next.body) && Up(process)
      modifies `current, `served, machine`c, machine`hots
      ensures machine.c ==
        old(machine.c).(config := machine.c.config, serves := machine.c.serves, mixed := machine.c.mixed)
      ensures mode.Some? ==> Valid() && current == Some(next) && mode.value != Restarted && old(served) <= served
      ensures mode.None? ==> Settled() && current == old(current) && served == old(served)
      ensures old(current).Some? && (mode == Some(Noop) <==> machine.same(old(current).value.body, next.body))
      ensures mode != Some(Noop) && NeedsRestart(old(current).value, next.body, next.restart) ==> mode.None?
      ensures machine.hots == old(machine.hots) +
        if mode == Some(Noop) || NeedsRestart(old(current).value, next.body, next.restart) then []
        else [Attempt(next.body, mode.Some?)]
    {
      var p := process.value;
      mode := None;
      if machine.same(machine.c.config[p], next.body) {
        machine.SetConfig(p, next.body);
        SetCurrent(next);
        return Some(Noop);
      }
      var hot := machine.ApplyHot(p, next.body, next.restart && machine.drops(machine.c.config[p], next.body));
      if hot {
        SetCurrent(next);
        mode := Some(Hot);
      }
    }

    /** switchTo: nothing to do, a hot apply, or a restart. */
    method SwitchTo(next: Applied) returns (ok: bool, mode: Mode)
      requires Lawful() && Valid() && IsApplied(next) && machine.Vetted(next.body)
      modifies this, machine`c, machine`launches, machine`hots, machine`faults
      ensures Spared(next.body, next.restart, !ok || mode == Restarted)
      ensures Lived() && machine.same(old(current).value.body, next.body) ==> ok && mode == Noop
      ensures if ok then machine.faults == old(machine.faults) else old(machine.faults) + [NotReady] <= machine.faults
      ensures old(machine.c).died <= machine.c.died && old(served) <= served
      ensures Valid() && savedRev == old(savedRev) && closed == old(closed)
      ensures machine.launches == old(machine.launches) +
        if ok && mode != Restarted then [] else Replacing(old(current), next, ok, process.Some?)
      ensures ok ==> current == Some(next) && process.Some?
      ensures !ok ==> current == old(current)
      ensures ok && mode == Hot ==> machine.hots == old(machine.hots) + [Attempt(next.body, true)]
      ensures ok && mode == Hot ==> old(current).Some? && !NeedsRestart(old(current).value, next.body, next.restart)
      ensures ok && mode == Noop ==> old(current).Some? && machine.same(old(current).value.body, next.body)
      ensures ok && mode != Restarted ==> process == old(process)
    {
      var prev := current;
      var running := Running();
      if running {
        var kept := Reuse(next);
        if kept.Some? {
          return true, kept.value;
        }
      }
      ok := Replace(prev, next);
      mode := Restarted;
    }

    /** Restarts the core into next, and into prev again when next does not start. */
    method Replace(prev: Option<Applied>, next: Applied) returns (ok: bool)
      requires Lawful() && Settled() && IsApplied(next) && prev == current && machine.Vetted(next.body)
      modifies this, machine`c, machine`launches, machine`faults
      ensures Valid() && savedRev == old(savedRev) && closed == old(closed)
      ensures machine.launches == old(machine.launches) + Replacing(prev, next, ok, process.Some?)
      ensures if ok then machine.faults == old(machine.faults) else old(machine.faults) + [NotReady] <= machine.faults
      ensures old(machine.c).died <= machine.c.died && old(served) <= served
      ensures if ok then current == Some(next) && process.Some? else current == old(current)
    {
      StopProcess();
      ok := Start(next);
      if !ok && prev.Some? && prev.value.revision != next.revision {
        var back := Start(prev.value);
      }
    }

    /** A failed save changed nothing, or failed after its rename. */
    ghost predicate SaveFailed(disk: Disk, ahead: bool, faults: seq<Fault>, a: Applied)
      reads machine
    {
      || (machine.faults == faults + [SaveEarly(Saved(a.body, a.restart))] && SameDisk(disk, ahead))
      || (machine.faults == faults + [SaveLate(Saved(a.body, a.restart))] && Stored(a.revision) && machine.ahead)
    }

    ghost predicate SameDisk(disk: Disk, ahead: bool)
      reads machine
    {
      machine.disk == disk && machine.ahead == ahead
    }

    /** Stores a unless it is what savedRev says is stored. */
    method Persist(a: Applied) returns (ok: bool)
      requires Lawful() && Valid() && IsApplied(a) && current == Some(a)
      modifies this`savedRev, machine`disk, machine`ahead, machine`faults
      ensures Valid() && (ok ==> machine.faults == old(machine.faults))
      ensures ok ==> savedRev == a.revision && (old(savedRev) == a.revision ==> machine.disk == old(machine.disk))
      ensures ok ==> (Stored(a.revision) <==> !(old(machine.ahead) && old(savedRev) == a.revision))
      ensures ok && machine.ahead ==>
        old(machine.ahead) && machine.disk == old(machine.disk) && old(savedRev) == a.revision
      ensures !ok ==>
        savedRev == old(savedRev) && SaveFailed(old(machine.disk), old(machine.ahead), old(machine.faults), a)
    {
      if savedRev == a.revision {
        return true;
      }
      ok := machine.SaveLastGood(Saved(a.body, a.restart));
      if ok {
        savedRev := a.revision;
      }
    }

    /** prepareConfig; the folder for the logs may be impossible to create. */
    method Build(body: string) returns (ok: bool)
      modifies machine`faults
      ensures ok ==> machine.prepares(body)
      ensures machine.faults ==
        if ok || !machine.prepares(body) then old(machine.faults) else old(machine.faults) + [Folder]
    {
      ok := false;
      if machine.prepares(body) {
        ok := *;
        machine.faults := if ok then machine.faults else machine.faults + [Folder];
      }
    }

    /** A push that was not applied failed at some point before the save. */
    static ghost predicate FailedFirst(f0: seq<Fault>, f1: seq<Fault>) {
      f0 < f1 && !f1[|f0|].SaveEarly? && !f1[|f0|].SaveLate?
    }

    /** A config was checked before anything was done with it, and a refused one was left there. */
    twostate predicate CheckedFirst(body: string, applied: bool)
      reads this, machine
    {
      && (machine.tests == old(machine.tests) || machine.tests == old(machine.tests) + [Attempt(body, true)] ||
          (machine.tests == old(machine.tests) + [Attempt(body, false)] && !applied))
      && (machine.tests != old(machine.tests) + [Attempt(body, true)] ==> Untouched())
    }

    /** No core was brought up, changed or stopped. */
    twostate predicate Untouched()
      reads this, machine
    {
      && machine.launches == old(machine.launches) && machine.hots == old(machine.hots)
      && current == old(current) && process == old(process) && Aged(old(machine.c), machine.c)
    }

    ghost predicate HasServed(revision: string)
      reads this
    {
      exists a :: a in served && a.revision == revision
    }

    /** The first config is the current one, and the second was served some time. */
    ghost predicate WentBack(first: string, second: string, restart: bool)
      reads this
    {
      current.Some? && current.value.revision == rev(first, restart) && HasServed(rev(second, restart))
    }

    /** Makes the core run body. It succeeds where the body can be prepared and nothing goes wrong. */
    method Apply(body: string, restart: bool) returns (r: Outcome)
      requires Lawful() && Valid()
      modifies this, machine
      ensures Valid() && closed == old(closed)
      ensures r.NotApplied? ==>
        current == old(current) && savedRev == old(savedRev) && SameDisk(old(machine.disk), old(machine.ahead))
      ensures !r.NotApplied? ==> process.Some? && current.Some? && current.value.revision == rev(body, restart)
      ensures !r.NotApplied? && Injective(rev) ==> current.value.body == body && current.value.restart == restart
      ensures r.NotApplied? ==>
        || (!machine.prepares(body) && machine.faults == old(machine.faults))
        || FailedFirst(old(machine.faults), machine.faults)
      ensures r.NotSaved? ==>
        && savedRev == old(savedRev)
        && SaveFailed(old(machine.disk), old(machine.ahead), old(machine.faults), current.value)
      ensures r.Done? ==> savedRev == rev(body, restart) && machine.faults == old(machine.faults)
      ensures old(served) <= served && (!r.NotApplied? ==> current.value in served)
      ensures Spared(body, restart, machine.launches != old(machine.launches))
      ensures Lived() && old(current).value.revision == rev(body, restart) ==>
        !r.NotApplied? && machine.launches == old(machine.launches) && machine.hots == old(machine.hots)
      ensures Lived() && machine.same(old(current).value.body, body) && r.Done? ==> r.mode == Noop
      ensures r.Done? && old(savedRev) == rev(body, restart) ==> machine.disk == old(machine.disk)
      ensures r.Done? ==>
        (Stored(rev(body, restart)) <==> !(old(machine.ahead) && old(savedRev) == rev(body, restart)))
      ensures machine.launches == old(machine.launches) || machine.launches == old(machine.launches) +
        Replacing(old(current), AppliedOf(rev, body, restart), !r.NotApplied?, process.Some?)
      ensures r.Done? ==> (machine.launches == old(machine.launches) <==> r.mode != Restarted)
      ensures r.Done? && r.mode == Hot ==> old(current).Some? && !NeedsRestart(old(current).value, body, restart)
      ensures r.Done? && r.mode != Restarted ==> process == old(process)
      ensures CheckedFirst(body, !r.NotApplied?)
    {
      var cur := current;
      var running := Running();
      if running && cur.value.revision == rev(body, restart) {
        var saved := Persist(cur.value);
        return if saved then Done(Noop) else NotSaved;
      }
      r := Push(AppliedOf(rev, body, restart));
    }

    /** Apply of a config that is not the running one. */
    method Push(next: Applied) returns (r: Outcome)
      requires Lawful() && Valid() && IsApplied(next)
      modifies this, machine
      ensures Valid() && closed == old(closed)
      ensures r.NotApplied? ==>
        current == old(current) && savedRev == old(savedRev) && SameDisk(old(machine.disk), old(machine.ahead))
      ensures !r.NotApplied? ==> process.Some? && current == Some(next)
      ensures r.NotApplied? ==>
        || (!machine.prepares(next.body) && machine.faults == old(machine.faults))
        || FailedFirst(old(machine.faults), machine.faults)
      ensures r.NotSaved? ==>
        savedRev == old(savedRev) && SaveFailed(old(machine.disk), old(machine.ahead), old(machine.faults), next)
      ensures r.Done? ==> savedRev == next.revision && machine.faults == old(machine.faults)
      ensures old(machine.c).died <= machine.c.died && old(served) <= served
      ensures Spared(next.body, next.restart, machine.launches != old(machine.launches))
      ensures Lived() && machine.same(old(current).value.body, next.body) && r.Done? ==> r.mode == Noop
      ensures r.Done? && old(savedRev) == next.revision ==> machine.disk == old(machine.disk)
      ensures r.Done? ==> (Stored(next.revision) <==> !(old(machine.ahead) && old(savedRev) == next.revision))
      ensures r.Done? && r.mode == Hot ==>
        old(current).Some? && !NeedsRestart(old(current).value, next.body, next.restart)
      ensures r.Done? && r.mode != Restarted ==> process == old(process)
      ensures machine.launches == old(machine.launches) ||
        machine.launches == old(machine.launches) + Replacing(old(current), next, !r.NotApplied?, process.Some?)
      ensures r.Done? ==> (machine.launches == old(machine.launches) <==> r.mode != Restarted)
      ensures CheckedFirst(next.body, !r.NotApplied?)
      ensures !r.NotApplied? ==> machine.tests == old(machine.tests) + [Attempt(next.body, true)]
    {
      var built := Build(next.body);
      if !built {
        return NotApplied;
      }
      var accepted := machine.TestConfig(next.body);
      if !accepted {
        return NotApplied;
      }
      r := Install(next);
    }

    /** Puts a config the core has accepted into effect, and stores it. */
    method Install(next: Applied) returns (r: Outcome)
      requires Lawful() && Valid() && IsApplied(next) && machine.Vetted(next.body)
      modifies this, machine`c, machine`launches, machine`hots, machine`faults, machine`disk, machine`ahead
      ensures Valid() && closed == old(closed)
      ensures r.NotApplied? ==>
        current == old(current) && savedRev == old(savedRev) && SameDisk(old(machine.disk), old(machine.ahead))
      ensures !r.NotApplied? ==> process.Some? && current == Some(next)
      ensures r.NotApplied? ==> FailedFirst(old(machine.faults), machine.faults)
      ensures r.NotSaved? ==>
        savedRev == old(savedRev) && SaveFailed(old(machine.disk), old(machine.ahead), old(machine.faults), next)
      ensures r.Done? ==> savedRev == next.revision && machine.faults == old(machine.faults)
      ensures old(machine.c).died <= machine.c.died && old(served) <= served
      ensures Spared(next.body, next.restart, machine.launches != old(machine.launches))
      ensures Lived() && machine.same(old(current).value.body, next.body) && r.Done? ==> r.mode == Noop
      ensures r.Done? && old(savedRev) == next.revision ==> machine.disk == old(machine.disk)
      ensures r.Done? ==> (Stored(next.revision) <==> !(old(machine.ahead) && old(savedRev) == next.revision))
      ensures r.Done? && r.mode == Hot ==>
        old(current).Some? && !NeedsRestart(old(current).value, next.body, next.restart)
      ensures r.Done? && r.mode != Restarted ==> process == old(process)
      ensures machine.launches == old(machine.launches) ||
        machine.launches == old(machine.launches) + Replacing(old(current), next, !r.NotApplied?, process.Some?)
      ensures r.Done? ==> (machine.launches == old(machine.launches) <==> r.mode != Restarted)
    {
      var ok, mode := SwitchTo(next);
      if !ok {
        return NotApplied;
      }
      var saved := Persist(next);
      r := if saved then Done(mode) else NotSaved;
    }

    /** The disk has a config the core can be built from. */
    predicate Bootable()
      reads machine
    {
      machine.disk.LastGood? && machine.disk.saved.body != "" && machine.prepares(machine.disk.saved.body)
    }

    /** Starts the last good config; a push that got in first wins. A config that can be built is
        taken up unless its folder cannot be made, and runs unless its core does not get ready; with
        nothing stored there is nothing to do, and any other disk is an error. */
    method Boot() returns (ok: bool)
      requires Lawful() && Valid()
      modifies this, machine`c, machine`launches, machine`faults
      ensures Valid() && closed == old(closed)
      ensures old(current).Some? ==> ok && current == old(current) && process == old(process)
      ensures machine.launches == old(machine.launches) +
        if old(current).None? && current.Some? then [Attempt(current.value.body, ok)] else []
      ensures old(current).None? && current.Some? ==>
        && machine.disk.LastGood? && savedRev == current.value.revision
        && current.value == AppliedOf(rev, machine.disk.saved.body, machine.disk.saved.restart)
      ensures ok && old(current).None? && current.Some? ==> process.Some?
      ensures old(current).None? ==>
        (ok <==> machine.disk.Nothing? || (Bootable() && machine.faults == old(machine.faults)))
      ensures old(current).None? && current.Some? ==> Bootable()
      ensures old(current).None? && current.Some? ==>
        machine.faults == if ok then old(machine.faults) else old(machine.faults) + [NotReady]
      ensures current.None? ==>
        machine.faults == if Bootable() then old(machine.faults) + [Folder] else old(machine.faults)
      ensures old(served) <= served
    {
      if current.Some? {
        return true;
      }
      var saved := machine.ReadLastGood();
      if saved.Unreadable? {
        return false;
      }
      if saved.Nothing? {
        return true;
      }
      var next := AppliedOf(rev, saved.saved.body, saved.saved.restart);
      var built := Build(next.body);
      if !built {
        return false;
      }
      current, savedRev := Some(next), next.revision;
      ok := Start(next);
    }

    /** Restarts the core with the config it last ran. */
    method Restart() returns (ok: bool)
      requires Lawful() && Valid()
      modifies this, machine`c, machine`launches, machine`faults
      ensures Valid() && current == old(current) && savedRev == old(savedRev) && closed == old(closed)
      ensures machine.launches == old(machine.launches) +
        if current.Some? then [Attempt(current.value.body, ok)] else []
      ensures machine.faults == old(machine.faults) + if current.Some? && !ok then [NotReady] else []
      ensures current.Some? ==> (ok <==> process.Some?)
      ensures current.None? ==> !ok && process == old(process)
    {
      var cur := current;
      if cur.None? {
        return false;
      }
      StopProcess();
      ok := Start(cur.value);
    }

    /** One tick of the supervisor at `now`; a failed start is over at `later`. */
    method Supervise(now: int, later: int) returns (tried: bool, started: bool)
      requires Lawful() && Valid() && now <= later
      modifies this, machine`c, machine`launches, machine`faults
      ensures Valid() && current == old(current) && savedRev == old(savedRev) && closed == old(closed)
      ensures tried <==> !closed && current.Some? && old(retryAt) <= now && !Up(old(process))
      ensures machine.launches == old(machine.launches) +
        if tried then [Attempt(current.value.body, started)] else []
      ensures machine.faults == old(machine.faults) + if tried && !started then [NotReady] else []
      ensures !tried ==> !started && process == old(process) && failures == old(failures) && retryAt == old(retryAt)
      ensures tried && started ==> process.Some? && failures == 0 && retryAt == 0
      ensures tried && !started ==>
        process == old(process) && failures == old(failures) + 1 && retryAt == later + Wait(failures)
    {
      var running := Running();
      if closed || current.None? || running || now < retryAt {
        return false, false;
      }
      tried := true;
      started := Start(current.value);
      if !started {
        WaitDoubles(failures);
        backoff := NextBackoff(backoff);
        retryAt := later + backoff;
        failures := failures + 1;
      }
    }

    /** Stops the core for good. */
    method Close()
      requires Valid()
      modifies this, machine`c
      ensures Valid() && closed && process.None? && current == old(current) && savedRev == old(savedRev)
    {
      closed := true;
      StopProcess();
    }
  }

  // ---------------------------------------------------------------------------
  // Whole runs
  // ---------------------------------------------------------------------------

  datatype Op = Boot | Apply(body: string, restart: bool) | Restart | Supervise(now: int, took: nat) | Close

  /** A life of the agent from an empty process table and whatever is on disk: at every point
      what Valid says holds: no core, too, is ever launched with a config the core has not accepted
      first, but for the one that was on disk. While no save has failed after its rename, what savedRev names is
      what a reboot brings back. */
  method Live(core: Core, ops: seq<Op>)
    requires core.Valid() && core.Lawful()
    modifies core, core.machine
    ensures core.Valid()
    ensures core.process.Some? ==> core.current.Some?
    ensures !core.machine.ahead && core.savedRev != "" ==> core.Stored(core.savedRev)
    ensures old(core.closed) ==> core.closed
    ensures forall a :: a in core.machine.launches ==> core.machine.Vetted(a.body)
  {
    for k := 0 to |ops|
      invariant core.Valid() && (old(core.closed) ==> core.closed)
    {
      match ops[k] {
        case Boot => var ok := core.Boot();
        case Apply(body, restart) => var r := core.Apply(body, restart);
        case Restart => var ok := core.Restart();
        case Supervise(now, took) => var tried, started := core.Supervise(now, now + took);
        case Close => core.Close();
      }
    }
  }

  /** When the next try is due after the first n ticks, and how many tries there were, when every
      one fails: a try is made at each tick that is due, and the next one is due the wait of the
      failures so far after its end. */
  function Due(ticks: seq<int>, took: seq<nat>, n: nat, due: int): (int, nat)
    requires n <= |ticks| == |took|
  {
    if n == 0 then (due, 0)
    else
      var (at, m) := Due(ticks, took, n - 1, due); AfterTick(at, m, ticks[n - 1], took[n - 1])
  }

  function AfterTick(at: int, m: nat, tick: int, took: nat): (int, nat) {
    if tick < at then (at, m) else (tick + took + Wait(m + 1), m + 1)
  }

  predicate TriedWhenDue(tries: seq<bool>, ticks: seq<int>, took: seq<nat>, due: int)
    requires |ticks| == |took|
  {
    && |tries| <= |ticks|
    && forall k :: 0 <= k < |tries| ==> (tries[k] <==> ticks[k] >= Due(ticks, took, k, due).0)
  }

  /** After a try at tick i, and none since, the next is due exactly the wait after its end. */
  lemma {:induction false} DueAfter(ticks: seq<int>, took: seq<nat>, i: nat, n: nat, due: int)
    requires i < n <= |ticks| == |took| && ticks[i] >= Due(ticks, took, i, due).0
    requires forall j :: i < j < n ==> ticks[j] < Due(ticks, took, j, due).0
    ensures Due(ticks, took, n, due).1 == Due(ticks, took, i, due).1 + 1
    ensures Due(ticks, took, n, due).0 == ticks[i] + took[i] + Wait(Due(ticks, took, n, due).1)
  {
    if n > i + 1 {
      DueAfter(ticks, took, i, n - 1, due);
    }
  }

  ghost predicate TriedSoFar(tries: seq<bool>, ticks: seq<int>, took: seq<nat>, due: int, k: nat, at: int, m: nat) {
    k == |tries| <= |ticks| == |took| && TriedWhenDue(tries, ticks, took, due) && (at, m) == Due(ticks, took, k, due)
  }

  lemma TriedNext(tries: seq<bool>, ticks: seq<int>, took: seq<nat>, due: int, k: nat, at: int, m: nat, tried: bool)
    requires k < |ticks| && TriedSoFar(tries, ticks, took, due, k, at, m) && (tried <==> ticks[k] >= at)
    ensures TriedWhenDue(tries + [tried], ticks, took, due)
    ensures Due(ticks, took, k + 1, due) == AfterTick(at, m, ticks[k], took[k])
  {
  }

  /** A config to run, and no core recorded. */
  ghost predicate Down(core: Core)
    reads core, core.machine
  {
    core.Valid() && core.Lawful() && core.process.None? && core.current.Some? && !core.closed
  }

  /** One tick of a core that is not up. */
  method TryOnce(core: Core, tick: int, took: nat) returns (tried: bool, started: bool)
    requires Down(core)
    modifies core, core.machine
    ensures if started then core.Valid() else Down(core)
    ensures tried <==> tick >= old(core.retryAt)
    ensures started ==> tried && core.process.Some? && core.failures == 0
    ensures !started ==>
      (core.retryAt, core.failures) == AfterTick(old(core.retryAt), old(core.failures), tick, took)
  {
    tried, started := core.Supervise(tick, tick + took);
  }

  /** A supervised core that keeps failing is tried at exactly the due ticks, until it starts. */
  method KeepFailing(core: Core, ticks: seq<int>, took: seq<nat>) returns (tries: seq<bool>)
    requires Down(core) && core.failures == 0 && |took| == |ticks|
    modifies core, core.machine
    ensures TriedWhenDue(tries, ticks, took, old(core.retryAt))
    ensures |tries| < |ticks| ==> core.process.Some? && core.failures == 0 && |tries| > 0 && tries[|tries| - 1]
    ensures core.process.None? ==> core.failures == Due(ticks, took, |ticks|, old(core.retryAt)).1
  {
    tries := [];
    ghost var due := core.retryAt;
    for k := 0 to |ticks|
      invariant Down(core)
      invariant TriedSoFar(tries, ticks, took, due, k, core.retryAt, core.failures)
    {
      ghost var at, m := core.retryAt, core.failures;
      var tried, started := TryOnce(core, ticks[k], took[k]);
      TriedNext(tries, ticks, took, due, k, at, m, tried);
      tries := tries + [tried];
      if started {
        return;
      }
    }
  }

  /** A push of a config that can be prepared: it is done when nothing goes wrong, and the first
      thing that does decides what is left. */
  method PushOnce(core: Core, body: string, restart: bool) returns (done: bool)
    requires core.Valid() && core.Lawful() && core.machine.prepares(body)
    modifies core, core.machine
    ensures core.Valid() && old(core.served) <= core.served && old(core.machine.faults) <= core.machine.faults
    ensures done <==> core.machine.faults == old(core.machine.faults)
    ensures done ==> core.savedRev == core.rev(body, restart) && core.HasServed(core.savedRev)
    ensures done ==> core.current.Some? && core.current.value.revision == core.savedRev
    ensures done && old(core.savedRev) == core.savedRev ==> core.machine.disk == old(core.machine.disk)
    ensures done ==> (core.Stored(core.savedRev) <==> !(old(core.machine.ahead) && old(core.savedRev) == core.savedRev))
    ensures !done ==>
      var f := core.machine.faults[|old(core.machine.faults)|];
      f.SaveLate? ==>
        && core.rev(f.saved.body, f.saved.restart) == core.rev(body, restart)
        && core.savedRev == old(core.savedRev) && core.machine.ahead
        && core.Stored(core.rev(body, restart)) && core.HasServed(core.rev(body, restart))
  {
    var r := core.Apply(body, restart);
    done := r.Done?;
  }

  /** Three pushes that can be prepared. Where nothing goes wrong the first config runs and is
      stored. Where just the save of the second fails, after its rename, going back to the first
      succeeds without a save, and a reboot brings back the second. */
  method FalseSuccess(core: Core, first: string, second: string, restart: bool)
    requires core.Valid() && core.Lawful() && !core.machine.ahead
    requires core.rev(first, restart) != core.rev(second, restart)
    requires core.machine.prepares(first) && core.machine.prepares(second)
    modifies core, core.machine
    ensures core.Valid()
    ensures core.machine.faults == old(core.machine.faults) ==>
      core.Stored(core.rev(first, restart)) && core.WentBack(first, second, restart)
    ensures core.machine.faults == old(core.machine.faults) + [SaveLate(Saved(second, restart))] ==>
      && core.Stored(core.rev(second, restart)) && !core.Stored(core.rev(first, restart))
      && core.WentBack(first, second, restart)
  {
    var a := PushOnce(core, first, restart);
    var b := PushOnce(core, second, restart);
    var c := PushOnce(core, first, restart);
  }

  /** The agent is started again on what is on disk: no process is left, and nothing is known. */
  method Reboot(core: Core) returns (again: Core, ok: bool)
    requires core.Valid() && core.Lawful()
    ensures fresh(again) && fresh(again.machine) && again.Valid() && again.rev == core.rev
    ensures again.machine.prepares == core.machine.prepares && again.machine.disk == core.machine.disk
    ensures again.Bootable() && again.machine.faults == [] ==>
      var saved := core.machine.disk.saved;
      && ok && again.process.Some? && again.machine.launches == [Attempt(saved.body, true)]
      && again.current == Some(Core.AppliedOf(core.rev, saved.body, saved.restart))
  {
    var m := new Machine(core.machine.prepares, core.machine.same, core.machine.drops, core.machine.disk);
    again := new Core(m, core.rev);
    ok := again.Boot();
  }

  /** A push that succeeded is what runs after a reboot without failures, unless its save was
      skipped while the disk was ahead. */
  method PushThenReboot(core: Core, body: string, restart: bool) returns (r: Outcome, again: Core, ok: bool)
    requires core.Valid() && core.Lawful() && Injective(core.rev) && core.machine.prepares(body) && body != ""
    modifies core, core.machine
    ensures r.Done? && again.machine.faults == []
            && !(old(core.machine.ahead) && old(core.savedRev) == core.rev(body, restart)) ==>
      && ok && again.process.Some? && again.machine.launches == [Attempt(body, true)]
      && again.current == Some(Core.AppliedOf(core.rev, body, restart))
    ensures core.machine.faults == old(core.machine.faults) ==> r.Done?
  {
    r := core.Apply(body, restart);
    again, ok := Reboot(core);
    StoredExactly(core, body, restart);
  }

  /** With a digest that tells configs apart, what is stored under a revision is that config. */
  lemma StoredExactly(core: Core, body: string, restart: bool)
    requires Injective(core.rev)
    ensures core.Stored(core.rev(body, restart)) <==> core.machine.disk == LastGood(Saved(body, restart))
  {
    var d := core.machine.disk;
    if core.Stored(core.rev(body, restart)) {
      assert core.rev(d.saved.body, d.saved.restart) == core.rev(body, restart);
      assert d == LastGood(Saved(d.saved.body, d.saved.restart));
    }
  }
}
