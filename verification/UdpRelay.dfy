/** The UDP relay of one embedded device: every Handle call and every pump is a goroutine, the
    SOCKS5 association is made outside the lock, and each peer may hold only so many sessions.
    The locked sections are methods of `UDPRelay` and `PeerSlots`; the goroutines are modelled as
    threads that take one such section, or one call outside the lock, at a time, in any order. */
module UdpRelay {
  import opened Sets
  import opened Text

  datatype Source = Source(addr: nat, port: nat)

  /** A SOCKS5 association; every one made is distinct. */
  type Session = nat

  // ---------------------------------------------------------------------------
  // Slots
  // ---------------------------------------------------------------------------

  function Held(held: map<string, int>, peer: string): int { if peer in held then held[peer] else 0 }

  function Acquired(held: map<string, int>, peer: string): map<string, int> { held[peer := Held(held, peer) + 1] }

  function Released(held: map<string, int>, peer: string): map<string, int> {
    if Held(held, peer) - 1 <= 0 then held - {peer} else held[peer := Held(held, peer) - 1]
  }

  /** The release undoes the acquire, entry and all. */
  lemma ReleaseUndoesAcquire(held: map<string, int>, peer: string)
    requires peer in held ==> held[peer] > 0
    ensures Released(Acquired(held, peer), peer) == held
  {
    if peer !in held {
      assert Acquired(held, peer) - {peer} == held;
    }
  }

  class PeerSlots {
    const limit: int
    var held: map<string, int>

    constructor (limit: int)
      ensures this.limit == limit && held == map[]
    {
      this.limit, held := limit, map[];
    }

    method Acquire(peer: string) returns (ok: bool)
      modifies this
      ensures ok == (Held(old(held), peer) < limit)
      ensures held == if ok then Acquired(old(held), peer) else old(held)
    {
      var n := if peer in held then held[peer] else 0;
      if n >= limit {
        return false;
      }
      held := held[peer := n + 1];
      ok := true;
    }

    method Release(peer: string)
      modifies this
      ensures held == Released(old(held), peer)
    {
      var n := (if peer in held then held[peer] else 0) - 1;
      held := held[peer := n];
      if n <= 0 {
        held := held - {peer};
      }
    }
  }

  // ---------------------------------------------------------------------------
  // The locked sections on the session map
  // ---------------------------------------------------------------------------

  type Sessions = map<Source, Session>

  function Without(sessions: Sessions, addrs: set<nat>): Sessions {
    map k | k in sessions && k.addr !in addrs :: sessions[k]
  }

  function At(sessions: Sessions, addrs: set<nat>): set<Session> {
    set k | k in sessions && k.addr in addrs :: sessions[k]
  }

  /** What a pump removes on its way out. */
  function RetiredFrom(sessions: Sessions, src: Source, sess: Session): Sessions {
    if src in sessions && sessions[src] == sess then sessions - {src} else sessions
  }

  class UDPRelay {
    var sessions: Sessions
    /** The associations closed so far. */
    var closed: set<Session>

    constructor ()
      ensures sessions == map[] && closed == {}
    {
      sessions, closed := map[], {};
    }

    method Lookup(src: Source) returns (sess: Option<Session>)
      ensures sess == if src in sessions then Some(sessions[src]) else None
    {
      sess := if src in sessions then Some(sessions[src]) else None;
    }

    /** Publishes an association unless a concurrent Handle was faster. */
    method Publish(src: Source, mine: Session) returns (existing: Option<Session>)
      modifies this
      ensures existing == if src in old(sessions) then Some(old(sessions)[src]) else None
      ensures sessions == if src in old(sessions) then old(sessions) else old(sessions)[src := mine]
      ensures closed == old(closed)
    {
      if src in sessions {
        return Some(sessions[src]);
      }
      sessions := sessions[src := mine];
      existing := None;
    }

    method Retire(src: Source, sess: Session)
      modifies this
      ensures sessions == RetiredFrom(old(sessions), src, sess) && closed == old(closed)
    {
      if src in sessions && sessions[src] == sess {
        sessions := sessions - {src};
      }
    }

    /** Closes and drops every session whose source address matches. */
    method CloseSessions(addrs: set<nat>)
      modifies this
      ensures sessions == Without(old(sessions), addrs)
      ensures closed == old(closed) + At(old(sessions), addrs)
    {
      var todo := sessions.Keys;
      while todo != {}
        invariant todo <= old(sessions).Keys
        invariant sessions.Keys <= old(sessions).Keys && forall k :: k in sessions ==> sessions[k] == old(sessions)[k]
        invariant forall k :: k in old(sessions) ==> (k in sessions <==> k in todo || k.addr !in addrs)
        invariant forall s :: s in closed <==>
          s in old(closed) || exists k :: k in old(sessions) && k !in todo && k.addr in addrs && old(sessions)[k] == s
        decreases todo
      {
        var k := AnyOf(todo);
        if k.addr in addrs {
          closed := closed + {sessions[k]};
          sessions := sessions - {k};
        }
        todo := todo - {k};
      }
    }

    method Close()
      modifies this
      ensures sessions == map[] && closed == old(closed) + old(sessions).Values
    {
      var addrs := set k | k in sessions :: k.addr;
      CloseSessions(addrs);
    }
  }

  // ---------------------------------------------------------------------------
  // Goroutines
  // ---------------------------------------------------------------------------

  /** Where a Handle call or a pump stands between two of its sections. */
  datatype Thread =
    | Missed(src: Source, email: string)
    | Associating(src: Source, email: string)
    | Publishing(src: Source, email: string, mine: Session)
    | Duplicate(email: string, mine: Session, existing: Session)
    | Releasing(email: string, next: Option<Session>)
    | Sending(sess: Session)
    | Pumping(src: Source, email: string, sess: Session)
    | Retired(email: string, sess: Session)
  {
    /** The peer whose slot the thread holds. */
    function Holds(): Option<string> {
      if Missed? || Sending? then None else Some(email)
    }

    /** The association only this thread may publish or pump. */
    function Owns(): Option<Session> {
      match this
      case Publishing(_, _, mine) => Some(mine)
      case Duplicate(_, mine, _) => Some(mine)
      case Pumping(_, _, sess) => Some(sess)
      case Retired(_, sess) => Some(sess)
      case _ => None
    }
  }

  /** The association a Handle call will send its datagram on, once that is decided. */
  function Target(th: Thread): Option<Session> {
    match th
    case Duplicate(_, _, existing) => Some(existing)
    case Releasing(_, next) => next
    case Sending(sess) => Some(sess)
    case _ => None
  }

  /** `owner` names the thread that owns each association; no code reads it. */
  datatype State = State(
    limit: int, sessions: Sessions, closed: set<Session>, held: map<string, int>,
    threads: map<nat, Thread>, made: Session, owner: map<Session, nat>)

  function Start(limit: int): State { State(limit, map[], {}, map[], map[], 0, map[]) }

  /** `Advance` lets one thread take its next section. `ok` is the outcome of a call outside the
      lock and `pump` names the goroutine a publish starts. */
  datatype Step =
    | Arrive(t: nat, src: Source, email: string)
    | Advance(t: nat, ok: bool, pump: nat)
    | CloseSessions(addrs: set<nat>)
    | Close

  function Become(s: State, t: nat, th: Thread): State { s.(threads := s.threads[t := th]) }

  function End(s: State, t: nat): State { s.(threads := s.threads - {t}) }

  /** The next section of the thread. */
  function Moved(s: State, t: nat, ok: bool, pump: nat): State
    requires t in s.threads
  {
    match s.threads[t]
    case Missed(src, email) =>
      if Held(s.held, email) >= s.limit then End(s, t)
      else Become(s, t, Associating(src, email)).(held := Acquired(s.held, email))
    case Associating(src, email) =>
      if ok then Become(s, t, Publishing(src, email, s.made)).(made := s.made + 1, owner := s.owner[s.made := t])
      else Become(s, t, Releasing(email, None))
    case Publishing(src, email, mine) =>
      if src in s.sessions then Become(s, t, Duplicate(email, mine, s.sessions[src]))
      else if pump in s.threads then s
      else
        Become(Become(s, t, Sending(mine)), pump, Pumping(src, email, mine))
          .(sessions := s.sessions[src := mine], owner := s.owner[mine := pump])
    case Duplicate(email, mine, existing) =>
      Become(s, t, Releasing(email, Some(existing))).(closed := s.closed + {mine})
    case Releasing(email, next) =>
      var released := s.(held := Released(s.held, email));
      if next.Some? then Become(released, t, Sending(next.value)) else End(released, t)
    case Sending(_) => End(s, t)
    case Pumping(src, email, sess) =>
      Become(s, t, Retired(email, sess)).(sessions := RetiredFrom(s.sessions, src, sess))
    case Retired(email, sess) =>
      Become(s, t, Releasing(email, None)).(closed := s.closed + {sess})
  }

  /** A step that is not possible in the state changes nothing. */
  function Next(s: State, step: Step): State {
    match step
    case Arrive(t, src, email) =>
      if t in s.threads then s
      else Become(s, t, if src in s.sessions then Sending(s.sessions[src]) else Missed(src, email))
    case Advance(t, ok, pump) => if t in s.threads then Moved(s, t, ok, pump) else s
    case CloseSessions(addrs) => s.(sessions := Without(s.sessions, addrs), closed := s.closed + At(s.sessions, addrs))
    case Close => s.(sessions := map[], closed := s.closed + s.sessions.Values)
  }

  function Run(s: State, steps: seq<Step>): State
    decreases |steps|
  {
    if steps == [] then s else Run(Next(s, steps[0]), steps[1..])
  }

  // ---------------------------------------------------------------------------
  // What holds between any two sections
  // ---------------------------------------------------------------------------

  function Holders(threads: map<nat, Thread>, peer: string): set<nat> {
    set t | t in threads && threads[t].Holds() == Some(peer)
  }

  /** Slots: exactly one per thread that acquired and has not released. */
  ghost predicate SlotsConserved(s: State) {
    && (forall peer :: Held(s.held, peer) == |Holders(s.threads, peer)|)
    && (forall peer :: peer in s.held ==> 0 < s.held[peer])
  }

  ghost predicate WithinLimit(s: State) { forall peer :: peer in s.held ==> s.held[peer] <= s.limit }

  predicate IsPump(s: State, t: nat, src: Source, sess: Session) {
    t in s.threads && s.threads[t].Pumping? && s.threads[t].src == src && s.threads[t].sess == sess
  }

  /** Associations: a thread that owns one is its only owner. */
  predicate Owned(s: State) {
    forall t :: t in s.threads && s.threads[t].Owns().Some? ==>
      var x := s.threads[t].Owns().value; x < s.made && x in s.owner && s.owner[x] == t
  }

  /** A session in the map is open and its owner is pumping it for that source. */
  predicate Mapped(s: State) {
    forall src :: src in s.sessions ==>
      var x := s.sessions[src]; x !in s.closed && x in s.owner && IsPump(s, s.owner[x], src, x)
  }

  predicate ClosedAfterUse(s: State) {
    && (forall x :: x in s.closed ==> x < s.made)
    && (forall t :: t in s.threads && s.threads[t].Publishing? ==> s.threads[t].mine !in s.closed)
  }

  /** Whose owner is a live thread that has it. */
  predicate InHand(s: State, x: Session) {
    x in s.owner && s.owner[x] in s.threads && s.threads[s.owner[x]].Owns() == Some(x)
  }

  /** Every association made has been closed or has a thread that will close it. */
  predicate NoneLost(s: State) { forall x: nat :: x < s.made ==> x in s.closed || InHand(s, x) }

  predicate SessionsInv(s: State) { Owned(s) && Mapped(s) && ClosedAfterUse(s) && NoneLost(s) }

  ghost predicate Inv(s: State) { SlotsConserved(s) && WithinLimit(s) && SessionsInv(s) }

  lemma HoldersAfter(threads: map<nat, Thread>, t: nat, th: Thread, peer: string)
    requires t !in threads || threads[t].Holds() != Some(peer)
    ensures |Holders(threads[t := th], peer)| == |Holders(threads, peer)| + if th.Holds() == Some(peer) then 1 else 0
  {
    var h := Holders(threads, peer);
    assert Holders(threads[t := th], peer) == if th.Holds() == Some(peer) then h + {t} else h;
  }

  lemma HoldersLess(threads: map<nat, Thread>, t: nat, th: Thread, peer: string)
    requires t in threads && threads[t].Holds() == Some(peer)
    ensures |Holders(threads[t := th], peer)| == |Holders(threads, peer)| - if th.Holds() == Some(peer) then 0 else 1
    ensures |Holders(threads - {t}, peer)| == |Holders(threads, peer)| - 1
  {
    var h := Holders(threads, peer);
    assert Holders(threads[t := th], peer) == if th.Holds() == Some(peer) then h else h - {t};
    assert Holders(threads - {t}, peer) == h - {t};
  }

  lemma HoldersEnded(threads: map<nat, Thread>, t: nat, peer: string)
    requires t in threads && threads[t].Holds() != Some(peer)
    ensures Holders(threads - {t}, peer) == Holders(threads, peer)
  {
  }

  /** A thread that keeps what it holds leaves every count alone. */
  lemma SameHolders(threads: map<nat, Thread>, t: nat, th: Thread)
    requires t in threads && threads[t].Holds() == th.Holds()
    ensures forall peer :: Holders(threads[t := th], peer) == Holders(threads, peer)
  {
    forall peer ensures Holders(threads[t := th], peer) == Holders(threads, peer) {
      assert forall u :: u in Holders(threads[t := th], peer) <==> u in Holders(threads, peer);
    }
  }

  // ---------------------------------------------------------------------------
  // Slots, step by step
  // ---------------------------------------------------------------------------

  lemma AcquireKeepsSlots(s: State, t: nat)
    requires SlotsConserved(s) && WithinLimit(s) && t in s.threads && s.threads[t].Missed?
    ensures SlotsConserved(Moved(s, t, true, 0)) && WithinLimit(Moved(s, t, true, 0))
  {
    var email, s' := s.threads[t].email, Moved(s, t, true, 0);
    forall peer ensures Held(s'.held, peer) == |Holders(s'.threads, peer)| {
      if Held(s.held, email) >= s.limit {
        HoldersEnded(s.threads, t, peer);
      } else {
        HoldersAfter(s.threads, t, Associating(s.threads[t].src, email), peer);
      }
    }
  }

  lemma ReleaseKeepsSlots(s: State, t: nat)
    requires SlotsConserved(s) && WithinLimit(s) && t in s.threads && s.threads[t].Releasing?
    ensures SlotsConserved(Moved(s, t, true, 0)) && WithinLimit(Moved(s, t, true, 0))
  {
    var th, s' := s.threads[t], Moved(s, t, true, 0);
    forall peer ensures Held(s'.held, peer) == |Holders(s'.threads, peer)| {
      if peer == th.email {
        HoldersLess(s.threads, t, Sending(if th.next.Some? then th.next.value else 0), peer);
        assert t in Holders(s.threads, peer);
      } else if th.next.Some? {
        HoldersAfter(s.threads, t, Sending(th.next.value), peer);
      } else {
        HoldersEnded(s.threads, t, peer);
      }
    }
  }

  lemma MoveKeepsSlots(s: State, t: nat, ok: bool, pump: nat)
    requires SlotsConserved(s) && WithinLimit(s) && t in s.threads
    ensures SlotsConserved(Moved(s, t, ok, pump)) && WithinLimit(Moved(s, t, ok, pump))
  {
    var th, s' := s.threads[t], Moved(s, t, ok, pump);
    match th {
      case Missed(_, _) => AcquireKeepsSlots(s, t);
      case Releasing(_, _) => ReleaseKeepsSlots(s, t);
      case Sending(_) =>
        forall peer { HoldersEnded(s.threads, t, peer); }
      case Publishing(src, email, mine) =>
        if src in s.sessions {
          SameHolders(s.threads, t, s'.threads[t]);
        } else if pump !in s.threads {
          PublishKeepsSlots(s, t, pump);
        }
      case _ => SameHolders(s.threads, t, s'.threads[t]);
    }
  }

  /** The slot passes from the Handle call to the pump it starts. */
  lemma PublishKeepsSlots(s: State, t: nat, pump: nat)
    requires SlotsConserved(s) && t in s.threads && s.threads[t].Publishing? && pump !in s.threads
    requires s.threads[t].src !in s.sessions
    ensures SlotsConserved(Moved(s, t, true, pump)) && Moved(s, t, true, pump).held == s.held
  {
    var th := s.threads[t];
    var mid := s.threads[t := Sending(th.mine)];
    forall peer ensures |Holders(mid[pump := Pumping(th.src, th.email, th.mine)], peer)| == |Holders(s.threads, peer)| {
      if peer == th.email {
        HoldersLess(s.threads, t, Sending(th.mine), peer);
      } else {
        HoldersAfter(s.threads, t, Sending(th.mine), peer);
      }
      HoldersAfter(mid, pump, Pumping(th.src, th.email, th.mine), peer);
    }
  }

  // ---------------------------------------------------------------------------
  // Associations, step by step
  // ---------------------------------------------------------------------------

  /** Only an association and a publish make a new owner; any other section passes on what the
      thread owned, or nothing. */
  lemma MoveKeepsOwned(s: State, t: nat, ok: bool, pump: nat)
    requires Owned(s) && t in s.threads
    ensures Owned(Moved(s, t, ok, pump))
  {
    var th, s' := s.threads[t], Moved(s, t, ok, pump);
    if th.Associating? && ok {
      NewOwner(s, t, t, s.made, s');
    } else if th.Publishing? && th.src !in s.sessions && pump !in s.threads {
      NewOwner(s, t, pump, th.mine, s');
    } else {
      OtherMoves(s, t, ok, pump);
      SameOwner(s, t, s');
    }
  }

  lemma OtherMoves(s: State, t: nat, ok: bool, pump: nat)
    requires t in s.threads && !(s.threads[t].Associating? && ok)
    requires !(s.threads[t].Publishing? && s.threads[t].src !in s.sessions && pump !in s.threads)
    ensures var s' := Moved(s, t, ok, pump);
      && s'.owner == s.owner && s'.made == s.made
      && (forall v :: v in s'.threads ==> v in s.threads && (v == t || s'.threads[v] == s.threads[v]))
      && (t in s'.threads ==> s'.threads[t].Owns() in {None, s.threads[t].Owns()})
  {
  }

  lemma NewOwner(s: State, t: nat, u: nat, x: Session, s': State)
    requires Owned(s) && t in s.threads && (u == t || u !in s.threads)
    requires x == s.made || s.threads[t].Owns() == Some(x)
    requires s'.owner == s.owner[x := u] && s'.made >= s.made && x < s'.made
    requires forall v :: v in s'.threads && v != u && s'.threads[v].Owns().Some? ==>
      v in s.threads && v != t && s'.threads[v] == s.threads[v]
    requires u in s'.threads && s'.threads[u].Owns() == Some(x)
    ensures Owned(s')
  {
  }

  lemma SameOwner(s: State, t: nat, s': State)
    requires Owned(s) && t in s.threads && s'.owner == s.owner && s'.made == s.made
    requires forall v :: v in s'.threads ==> v in s.threads && (v == t || s'.threads[v] == s.threads[v])
    requires t in s'.threads ==> s'.threads[t].Owns() in {None, s.threads[t].Owns()}
    ensures Owned(s')
  {
  }

  lemma MoveKeepsMapped(s: State, t: nat, ok: bool, pump: nat)
    requires SessionsInv(s) && t in s.threads
    ensures Mapped(Moved(s, t, ok, pump))
  {
    var th, s' := s.threads[t], Moved(s, t, ok, pump);
    if th.Owns().Some? && !th.Pumping? {
      NotMapped(s, t);
    }
    if th.Publishing? && th.src !in s.sessions && pump !in s.threads {
      PublishMaps(s, t, pump);
    } else {
      StillMapped(s, t, s');
    }
  }

  lemma PublishMaps(s: State, t: nat, pump: nat)
    requires SessionsInv(s) && t in s.threads && s.threads[t].Publishing?
    requires s.threads[t].src !in s.sessions && pump !in s.threads
    ensures Mapped(Moved(s, t, true, pump))
  {
    NotMapped(s, t);
  }

  lemma StillMapped(s: State, t: nat, s': State)
    requires SessionsInv(s)
    requires forall v :: v in s.threads && v != t ==> v in s'.threads && s'.threads[v] == s.threads[v]
    requires forall src :: src in s'.sessions ==>
      && src in s.sessions && s'.sessions[src] == s.sessions[src]
      && s.sessions[src] !in s'.closed && !IsPump(s, t, src, s.sessions[src])
    requires forall x :: x in s.owner && x != s.made ==> x in s'.owner && s'.owner[x] == s.owner[x]
    ensures Mapped(s')
  {
    forall src | src in s'.sessions ensures s.sessions[src] != s.made {
      assert s.threads[s.owner[s.sessions[src]]].Owns() == Some(s.sessions[src]);
    }
  }

  /** What a thread other than its pump owns is not in the map. */
  lemma NotMapped(s: State, t: nat)
    requires Owned(s) && Mapped(s) && t in s.threads && s.threads[t].Owns().Some? && !s.threads[t].Pumping?
    ensures forall src :: src in s.sessions ==> s.sessions[src] != s.threads[t].Owns().value
  {
  }

  lemma MoveKeepsClosed(s: State, t: nat, ok: bool, pump: nat)
    requires SessionsInv(s) && t in s.threads
    ensures ClosedAfterUse(Moved(s, t, ok, pump))
  {
    forall u | u in s.threads && u != t && s.threads[u].Publishing? && s.threads[t].Owns().Some?
      ensures s.threads[u].mine != s.threads[t].Owns().value {
      assert s.threads[u].Owns() == Some(s.threads[u].mine);
    }
  }

  lemma MoveLosesNone(s: State, t: nat, ok: bool, pump: nat)
    requires SessionsInv(s) && t in s.threads
    ensures NoneLost(Moved(s, t, ok, pump))
  {
    var s' := Moved(s, t, ok, pump);
    forall x: nat | x < s'.made ensures x in s'.closed || InHand(s', x) {
      assert x < s.made ==> x in s.closed || InHand(s, x);
    }
  }

  lemma ClosingKeeps(s: State, addrs: set<nat>)
    requires SessionsInv(s)
    ensures SessionsInv(Next(s, CloseSessions(addrs)))
  {
  }

  // ---------------------------------------------------------------------------
  // Whole runs
  // ---------------------------------------------------------------------------

  lemma NextKeeps(s: State, step: Step)
    requires Inv(s)
    ensures Inv(Next(s, step))
  {
    match step {
      case Arrive(t, src, email) =>
        if t !in s.threads {
          var th := if src in s.sessions then Sending(s.sessions[src]) else Missed(src, email);
          forall peer ensures Holders(s.threads[t := th], peer) == Holders(s.threads, peer) {
            assert t !in Holders(s.threads, peer);
          }
        }
      case Advance(t, ok, pump) =>
        if t in s.threads {
          MoveKeepsSlots(s, t, ok, pump);
          MoveKeepsOwned(s, t, ok, pump);
          MoveKeepsMapped(s, t, ok, pump);
          MoveKeepsClosed(s, t, ok, pump);
          MoveLosesNone(s, t, ok, pump);
        }
      case CloseSessions(addrs) => ClosingKeeps(s, addrs);
      case Close => ClosingAllKeeps(s);
    }
  }

  lemma ClosingAllKeeps(s: State)
    requires SessionsInv(s)
    ensures SessionsInv(Next(s, Close))
  {
    ClosingKeeps(s, set k | k in s.sessions :: k.addr);
    CloseIsAll(s);
  }

  /** Every interleaving of any number of Handle calls, pumps and closings. */
  lemma {:induction false} RunKeeps(s: State, steps: seq<Step>)
    requires Inv(s)
    ensures Inv(Run(s, steps)) && Run(s, steps).limit == s.limit
    decreases |steps|
  {
    if steps != [] {
      NextKeeps(s, steps[0]);
      RunKeeps(Next(s, steps[0]), steps[1..]);
    }
  }

  ghost predicate Reachable(s: State) { exists limit: nat, steps :: s == Run(Start(limit), steps) }

  /** A run can always go on, with any step. */
  lemma ReachesNext(s: State, step: Step)
    requires Reachable(s)
    ensures Reachable(Next(s, step)) && Reachable(Start(0))
  {
    var limit: nat, steps :| s == Run(Start(limit), steps);
    RunThen(Start(limit), steps, step);
    assert Start(0) == Run(Start(0), []);
  }

  lemma {:induction false} RunThen(s: State, steps: seq<Step>, step: Step)
    ensures Run(s, steps + [step]) == Next(Run(s, steps), step)
    decreases |steps|
  {
    if steps == [] {
      assert [] + [step] == [step] && Run(Next(s, step), [step][1..]) == Next(s, step);
    } else {
      RunThen(Next(s, steps[0]), steps[1..], step);
      assert (steps + [step])[1..] == steps[1..] + [step];
    }
  }

  lemma ReachableInv(s: State)
    requires Reachable(s)
    ensures Inv(s) && s.limit >= 0
  {
    var limit: nat, steps :| s == Run(Start(limit), steps);
    assert Inv(Start(limit));
    RunKeeps(Start(limit), steps);
  }

  /** A peer's count is the number of goroutines that hold a slot for it, so it is never
      refused while fewer than the limit do, and never gets more. */
  lemma SlotsAreHolders(s: State, peer: string)
    requires Reachable(s)
    ensures Held(s.held, peer) == |Holders(s.threads, peer)| <= s.limit
    ensures peer in s.held <==> Holders(s.threads, peer) != {}
  {
    ReachableInv(s);
    assert Held(s.held, peer) == |Holders(s.threads, peer)|;
    assert Holders(s.threads, peer) != {} ==> |Holders(s.threads, peer)| > 0;
  }

  /** Every session in the map is open and has exactly one goroutine that pumps it. */
  lemma OnePump(s: State, src: Source)
    requires Reachable(s) && src in s.sessions
    ensures s.sessions[src] !in s.closed
    ensures exists t :: IsPump(s, t, src, s.sessions[src])
    ensures forall t, u, k, l :: IsPump(s, t, k, s.sessions[src]) && IsPump(s, u, l, s.sessions[src]) ==>
      t == u && k == l == src
  {
    ReachableInv(s);
    var x := s.sessions[src];
    assert IsPump(s, s.owner[x], src, x);
    forall t, k | IsPump(s, t, k, x) ensures t == s.owner[x] {
      assert s.threads[t].Owns() == Some(x);
    }
  }

  /** Two sources never share a session. */
  lemma SessionsDistinct(s: State, k: Source, l: Source)
    requires Reachable(s) && k in s.sessions && l in s.sessions && s.sessions[k] == s.sessions[l]
    ensures k == l
  {
    ReachableInv(s);
    assert IsPump(s, s.owner[s.sessions[k]], k, s.sessions[k]);
  }

  /** Only a pump of the session itself, or a closing, ever takes a session out of the map. */
  lemma EvictsOnlyItsOwn(s: State, t: nat, ok: bool, pump: nat, src: Source)
    requires Reachable(s) && t in s.threads && src in s.sessions
    requires var s' := Next(s, Advance(t, ok, pump)); src !in s'.sessions || s'.sessions[src] != s.sessions[src]
    ensures IsPump(s, t, src, s.sessions[src]) && src !in Next(s, Advance(t, ok, pump)).sessions
  {
  }

  lemma PumpBehindEach(s: State)
    requires SessionsInv(s)
    ensures s.sessions != map[] ==> exists t :: t in s.threads && s.threads[t].Pumping?
  {
    if s.sessions != map[] {
      var src :| src in s.sessions;
      assert IsPump(s, s.owner[s.sessions[src]], src, s.sessions[src]);
    }
  }

  // ---------------------------------------------------------------------------
  // What becomes of one call
  // ---------------------------------------------------------------------------

  /** A call for a source with a session goes on with it, and any other one is yet to be admitted. */
  lemma ArrivalFindsSession(s: State, t: nat, src: Source, email: string)
    requires t !in s.threads
    ensures var s' := Next(s, Arrive(t, src, email));
      && t in s'.threads && s' == s.(threads := s'.threads) && s'.threads - {t} == s.threads - {t}
      && (src in s.sessions ==> Target(s'.threads[t]) == Some(s.sessions[src]))
      && (src !in s.sessions ==> s'.threads[t] == Missed(src, email))
  {
  }

  /** A call is turned away just when its peer holds as many slots as the limit allows. */
  lemma AdmittedIff(s: State, t: nat, ok: bool, pump: nat)
    requires Reachable(s) && t in s.threads && s.threads[t].Missed?
    ensures t in Next(s, Advance(t, ok, pump)).threads <==> |Holders(s.threads, s.threads[t].email)| < s.limit
  {
    SlotsAreHolders(s, s.threads[t].email);
  }

  /** After the publishing section the source has a session with a pump, the datagram goes there, and
      the call's own association is either that one or about to be closed. */
  lemma PublishedIsTarget(s: State, t: nat, ok: bool, pump: nat)
    requires Reachable(s) && t in s.threads && s.threads[t].Publishing?
    requires s.threads[t].src in s.sessions || pump !in s.threads
    ensures var s', src := Next(s, Advance(t, ok, pump)), s.threads[t].src;
      && src in s'.sessions && t in s'.threads && Target(s'.threads[t]) == Some(s'.sessions[src])
      && s'.sessions[src] == (if src in s.sessions then s.sessions[src] else s.threads[t].mine)
      && (exists u :: IsPump(s', u, src, s'.sessions[src]))
      && (src in s.sessions ==> s'.sessions == s.sessions && s'.threads[t].Owns() == Some(s.threads[t].mine))
  {
    ReachableInv(s);
    NextKeeps(s, Advance(t, ok, pump));
    var s', src := Next(s, Advance(t, ok, pump)), s.threads[t].src;
    assert IsPump(s', s'.owner[s'.sessions[src]], src, s'.sessions[src]);
  }

  lemma OtherThreadsStay(s: State, u: nat, ok: bool, pump: nat)
    requires u in s.threads
    ensures forall v :: v in s.threads && v != u ==>
      v in Moved(s, u, ok, pump).threads && Moved(s, u, ok, pump).threads[v] == s.threads[v]
  {
  }

  lemma OwnMoveKeepsTarget(s: State, t: nat, ok: bool, pump: nat)
    requires t in s.threads && Target(s.threads[t]).Some?
    ensures var s' := Moved(s, t, ok, pump);
      if t in s'.threads then Target(s'.threads[t]) == Target(s.threads[t]) else s.threads[t].Sending?
  {
  }

  /** A decided datagram is not given up: its call ends only by sending it. */
  lemma TargetKept(s: State, t: nat, step: Step)
    requires t in s.threads && Target(s.threads[t]).Some?
    ensures var s' := Next(s, step);
      if t in s'.threads then Target(s'.threads[t]) == Target(s.threads[t]) else s.threads[t].Sending?
  {
    if step.Advance? && step.t in s.threads {
      OtherThreadsStay(s, step.t, step.ok, step.pump);
      if step.t == t {
        OwnMoveKeepsTarget(s, t, step.ok, step.pump);
      }
    }
  }

  /** A call that made an association for nothing, or a pump at its end, closes it and gives its
      slot back in two sections of its own. */
  lemma ClosesOwn(s: State, t: nat, ok: bool, pump: nat)
    requires t in s.threads && (s.threads[t].Duplicate? || s.threads[t].Retired?)
    ensures var s' := Next(s, Advance(t, ok, pump));
      && s'.closed == s.closed + {s.threads[t].Owns().value} && s'.sessions == s.sessions
      && t in s'.threads && s'.threads[t].Releasing? && s'.threads[t].Holds() == s.threads[t].Holds()
  {
  }

  /** A closing by address takes out exactly the sessions of these addresses and closes just them. */
  lemma ClosingIsExact(s: State, addrs: set<nat>)
    requires Reachable(s)
    ensures var s' := Next(s, CloseSessions(addrs));
      && s'.threads == s.threads && s'.held == s.held
      && (forall src :: src in s.sessions ==>
            && (src in s'.sessions <==> src.addr !in addrs)
            && (s.sessions[src] in s'.closed <==> src.addr in addrs))
      && (forall src :: src in s'.sessions ==> src in s.sessions && s'.sessions[src] == s.sessions[src])
  {
    ReachableInv(s);
    var s' := Next(s, CloseSessions(addrs));
    forall src | src in s.sessions && src.addr !in addrs ensures s.sessions[src] !in s'.closed {
      forall k | k in s.sessions && k.addr in addrs ensures s.sessions[k] != s.sessions[src] {
        assert IsPump(s, s.owner[s.sessions[k]], k, s.sessions[k]);
      }
    }
  }

  /** Closing the relay is closing every address. */
  lemma CloseIsAll(s: State)
    ensures Next(s, Close) == Next(s, CloseSessions(set k | k in s.sessions :: k.addr))
  {
  }

  /** An association that is not closed has exactly one goroutine that answers for it. */
  lemma OpenHasOwner(s: State, x: Session)
    requires Reachable(s) && x < s.made && x !in s.closed
    ensures exists t :: t in s.threads && s.threads[t].Owns() == Some(x)
    ensures forall t, u :: t in s.threads && u in s.threads && s.threads[t].Owns() == Some(x) == s.threads[u].Owns() ==>
      t == u
  {
    ReachableInv(s);
    assert InHand(s, x);
  }

  /** When no Handle call is under way and every pump has gone, nothing is left behind: no slot, no
      session, and no association open. */
  lemma Quiescent(s: State)
    requires Reachable(s) && forall t :: t in s.threads ==> s.threads[t].Missed? || s.threads[t].Sending?
    ensures s.held == map[] && s.sessions == map[]
    ensures forall x: nat :: x < s.made ==> x in s.closed
  {
    ReachableInv(s);
    forall peer ensures peer !in s.held {
      assert Holders(s.threads, peer) == {};
      assert Held(s.held, peer) == 0;
    }
    PumpBehindEach(s);
  }
}
