/** The event bus: a bounded channel, one dispatcher that fans out under the read lock, and one
    worker with a bounded queue for each subscriber. Events are named by their place among those
    the channel accepted. Goroutines take one channel operation at a time, in any order. */
module EventBus {
  import opened Text

  const DEFAULT_BUFFER_SIZE := 256
  const SUBSCRIBER_QUEUE_SIZE := 64

  /** An entry of the subscriber list: the id, and the worker started for it. */
  datatype Subscriber = Subscriber(id: string, worker: nat)

  // ---------------------------------------------------------------------------
  // The subscriber list
  // ---------------------------------------------------------------------------

  function Without(subs: seq<Subscriber>, id: string): seq<Subscriber> {
    if subs == [] then [] else if subs[0].id == id then subs[1..] else [subs[0]] + Without(subs[1..], id)
  }

  /** The worker told to quit, if the id is known. */
  function Quitting(subs: seq<Subscriber>, id: string): set<nat> {
    if subs == [] then {} else if subs[0].id == id then {subs[0].worker} else Quitting(subs[1..], id)
  }

  class Bus {
    var subs: seq<Subscriber>
    var stopped: bool
    /** The workers whose quit channel is closed. */
    var quit: set<nat>

    constructor ()
      ensures subs == [] && !stopped && quit == {}
    {
      subs, stopped, quit := [], false, {};
    }

    /** Subscribe; an id already registered is replaced. */
    method Subscribe(id: string, worker: nat)
      modifies this
      ensures stopped == old(stopped)
      ensures stopped ==> subs == old(subs) && quit == old(quit)
      ensures !stopped ==>
        subs == Without(old(subs), id) + [Subscriber(id, worker)] && quit == old(quit) + Quitting(old(subs), id)
    {
      if stopped {
        return;
      }
      Remove(id);
      subs := subs + [Subscriber(id, worker)];
    }

    method Unsubscribe(id: string)
      modifies this
      ensures stopped == old(stopped) && subs == Without(old(subs), id) && quit == old(quit) + Quitting(old(subs), id)
    {
      Remove(id);
    }

    /** The search both make: the first entry with the id goes. */
    method Remove(id: string)
      modifies `subs, `quit
      ensures subs == Without(old(subs), id) && quit == old(quit) + Quitting(old(subs), id)
    {
      for i := 0 to |subs|
        invariant subs == old(subs) && quit == old(quit)
        invariant forall k :: 0 <= k < i ==> subs[k].id != id
      {
        if subs[i].id == id {
          FirstWithId(subs, id, i);
          quit := quit + {subs[i].worker};
          subs := subs[..i] + subs[i + 1..];
          return;
        }
      }
      NoneWithId(subs, id);
    }
  }

  lemma {:induction false} FirstWithId(subs: seq<Subscriber>, id: string, i: nat)
    requires i < |subs| && subs[i].id == id && forall k :: 0 <= k < i ==> subs[k].id != id
    ensures Without(subs, id) == subs[..i] + subs[i + 1..] && Quitting(subs, id) == {subs[i].worker}
  {
    if i > 0 {
      FirstWithId(subs[1..], id, i - 1);
      assert [subs[0]] + (subs[1..][..i - 1] + subs[1..][i..]) == subs[..i] + subs[i + 1..];
    }
  }

  lemma {:induction false} NoneWithId(subs: seq<Subscriber>, id: string)
    requires forall k :: 0 <= k < |subs| ==> subs[k].id != id
    ensures Without(subs, id) == subs && Quitting(subs, id) == {}
  {
    if subs != [] {
      NoneWithId(subs[1..], id);
    }
  }

  // ---------------------------------------------------------------------------
  // The whole bus
  // ---------------------------------------------------------------------------

  /** `since` counts the events dispatched before the worker was started; `lost` are those that
      found its queue full. No code reads either. */
  datatype Worker = Worker(
    since: nat, queue: seq<nat>, handling: Option<nat>, handled: seq<nat>, lost: set<nat>, exited: bool)
  {
    /** What the subscriber has handled and still holds, oldest first. */
    function History(): seq<nat> {
      handled + (if handling.Some? then [handling.value] else []) + queue
    }
  }

  /** `accepted` counts the events ever put into the channel, `taken` those the dispatcher took out
      and `started` those it has taken the read lock for. `pending` are the workers the last of
      these is still to be sent to, while the lock is held. */
  datatype State = State(
    size: nat, accepted: nat, taken: nat, started: nat, pending: Option<seq<nat>>,
    subs: seq<Subscriber>, workers: map<nat, Worker>, quit: set<nat>, stopped: bool, done: bool, dispatching: bool)

  function Start(size: int): State {
    State(if size <= 0 then DEFAULT_BUFFER_SIZE else size, 0, 0, 0, None, [], map[], {}, false, false, true)
  }

  datatype Step =
    | Publish
    | Take
    | Lock
    | Send
    | StopDispatching
    | Subscribe(id: string, worker: nat)
    | Unsubscribe(id: string)
    | Receive(w: nat)
    | Handle(w: nat)
    | Exit(w: nat)
    | Stop
    | CloseDone

  function WorkersOf(subs: seq<Subscriber>): seq<nat> {
    if subs == [] then [] else [subs[0].worker] + WorkersOf(subs[1..])
  }

  function Delivered(w: Worker, event: nat): Worker {
    if |w.queue| < SUBSCRIBER_QUEUE_SIZE then w.(queue := w.queue + [event]) else w.(lost := w.lost + {event})
  }

  function Sent(s: State): State
    requires s.pending.Some? && s.pending.value != [] && s.started > 0
  {
    var w, rest := s.pending.value[0], s.pending.value[1..];
    var after := s.(pending := if rest == [] then None else Some(rest));
    if w in s.workers then after.(workers := s.workers[w := Delivered(s.workers[w], s.started - 1)]) else after
  }

  function Removed(s: State, id: string): State {
    s.(subs := Without(s.subs, id), quit := s.quit + Quitting(s.subs, id))
  }

  function Joined(s: State, id: string, w: nat): State {
    s.(subs := s.subs + [Subscriber(id, w)], workers := s.workers[w := Worker(s.started, [], None, [], {}, false)])
  }

  /** A step that is not possible in the state changes nothing. */
  function Next(s: State, step: Step): State {
    match step
    case Publish => if s.accepted - s.taken < s.size then s.(accepted := s.accepted + 1) else s
    case Take =>
      if s.pending.Some? || s.started < s.taken || !s.dispatching || s.taken >= s.accepted then s
      else s.(taken := s.taken + 1)
    case Lock =>
      if s.pending.Some? || s.started >= s.taken then s
      else s.(started := s.started + 1, pending := if s.subs == [] then None else Some(WorkersOf(s.subs)))
    case Send => if s.pending.None? || s.pending.value == [] || s.started == 0 then s else Sent(s)
    case StopDispatching => if s.done && s.pending.None? && s.started == s.taken then s.(dispatching := false) else s
    case Subscribe(id, w) =>
      if s.pending.Some? || s.stopped || w in s.workers then s
      else Joined(Removed(s, id), id, w)
    case Unsubscribe(id) =>
      if s.pending.Some? then s else Removed(s, id)
    case Receive(w) =>
      if w in s.workers && !s.workers[w].exited && s.workers[w].handling.None? && s.workers[w].queue != [] then
        var k := s.workers[w];
        s.(workers := s.workers[w := k.(handling := Some(k.queue[0]), queue := k.queue[1..])])
      else s
    case Handle(w) =>
      if w in s.workers && s.workers[w].handling.Some? then
        var k := s.workers[w];
        s.(workers := s.workers[w := k.(handling := None, handled := k.handled + [k.handling.value])])
      else s
    case Exit(w) =>
      if w in s.workers && s.workers[w].handling.None? && (w in s.quit || s.done) then
        s.(workers := s.workers[w := s.workers[w].(exited := true)])
      else s
    case Stop => if s.pending.Some? then s else s.(stopped := true)
    case CloseDone => if s.stopped then s.(done := true) else s
  }

  function Run(s: State, steps: seq<Step>): State
    decreases |steps|
  {
    if steps == [] then s else Run(Next(s, steps[0]), steps[1..])
  }

  // ---------------------------------------------------------------------------
  // What holds between any two steps
  // ---------------------------------------------------------------------------

  predicate Increasing(h: seq<nat>) { forall i, j :: 0 <= i < j < |h| ==> h[i] < h[j] }

  /** The number of events that have reached the worker's place in the list. */
  function Upto(s: State, w: nat): nat {
    if s.pending.Some? && w in s.pending.value && s.started > 0 then s.started - 1 else s.started
  }

  predicate InOrder(k: Worker, upto: nat) {
    && |k.queue| <= SUBSCRIBER_QUEUE_SIZE && k.since <= upto
    && Increasing(k.History()) && forall x :: x in k.History() ==> k.since <= x < upto
  }

  /** Every event dispatched since the subscription was delivered or dropped, never both. */
  predicate Accounted(k: Worker, upto: nat) {
    && (forall x :: k.since <= x < upto ==> x in k.History() || x in k.lost)
    && (forall x :: x in k.lost ==> x !in k.History() && x < upto)
  }

  predicate Listed(s: State, w: nat) { exists i :: 0 <= i < |s.subs| && s.subs[i].worker == w }

  predicate ListOK(s: State) {
    && (forall i, j :: 0 <= i < j < |s.subs| ==> s.subs[i].id != s.subs[j].id && s.subs[i].worker != s.subs[j].worker)
    && (forall i :: 0 <= i < |s.subs| ==> s.subs[i].worker in s.workers && s.subs[i].worker !in s.quit)
    && (forall w :: w in s.quit ==> w in s.workers)
  }

  predicate PendingOK(s: State) {
    s.pending.Some? ==>
      && s.started > 0 && s.pending.value != []
      && (forall i, j :: 0 <= i < j < |s.pending.value| ==> s.pending.value[i] != s.pending.value[j])
      && (forall w :: w in s.pending.value ==> Listed(s, w))
  }

  predicate WorkerOK(s: State, w: nat)
    requires w in s.workers
  {
    InOrder(s.workers[w], Upto(s, w)) && (Listed(s, w) ==> Accounted(s.workers[w], Upto(s, w)))
  }

  predicate WorkersOK(s: State) {
    forall w :: w in s.workers ==> WorkerOK(s, w)
  }

  predicate Inv(s: State) {
    && s.started <= s.taken <= s.started + 1 && s.taken <= s.accepted && s.accepted - s.taken <= s.size
    && ListOK(s) && PendingOK(s) && WorkersOK(s)
  }

  lemma WithoutSub(subs: seq<Subscriber>, id: string)
    requires forall i, j :: 0 <= i < j < |subs| ==> subs[i].id != subs[j].id && subs[i].worker != subs[j].worker
    ensures forall i :: 0 <= i < |Without(subs, id)| ==> Without(subs, id)[i] in subs && Without(subs, id)[i].id != id
    ensures forall i, j :: 0 <= i < j < |Without(subs, id)| ==>
      Without(subs, id)[i].id != Without(subs, id)[j].id && Without(subs, id)[i].worker != Without(subs, id)[j].worker
    ensures forall w :: w in Quitting(subs, id) ==> exists x :: x in subs && x.worker == w && x.id == id
    ensures forall x :: x in Without(subs, id) ==> x.worker !in Quitting(subs, id)
  {
    if subs != [] && subs[0].id != id {
      WithoutSub(subs[1..], id);
      var rest := Without(subs[1..], id);
      forall j | 0 <= j < |rest| ensures rest[j].id != subs[0].id && rest[j].worker != subs[0].worker {
        assert rest[j] in subs[1..];
      }
    }
  }

  lemma {:induction false} WorkersOfSubs(subs: seq<Subscriber>)
    ensures |WorkersOf(subs)| == |subs| && forall i :: 0 <= i < |subs| ==> WorkersOf(subs)[i] == subs[i].worker
  {
    if subs != [] {
      WorkersOfSubs(subs[1..]);
    }
  }

  // ---------------------------------------------------------------------------
  // Workers, step by step
  // ---------------------------------------------------------------------------

  /** Taking an event from the queue, and finishing with it, change what is where and not what
      the subscriber has been given. */
  lemma ReceiveKeepsHistory(k: Worker)
    requires k.handling.None? && k.queue != []
    ensures k.(handling := Some(k.queue[0]), queue := k.queue[1..]).History() == k.History()
  {
    assert k.handled + [k.queue[0]] + k.queue[1..] == k.handled + k.queue;
  }

  lemma HandleKeepsHistory(k: Worker)
    requires k.handling.Some?
    ensures k.(handling := None, handled := k.handled + [k.handling.value]).History() == k.History()
  {
    assert k.handled + [k.handling.value] + [] + k.queue == k.handled + [k.handling.value] + k.queue;
  }

  lemma DeliveredHistory(k: Worker, event: nat)
    ensures |k.queue| < SUBSCRIBER_QUEUE_SIZE ==> Delivered(k, event).History() == k.History() + [event]
    ensures |k.queue| >= SUBSCRIBER_QUEUE_SIZE ==> Delivered(k, event).History() == k.History()
  {
    if |k.queue| < SUBSCRIBER_QUEUE_SIZE {
      var head := k.handled + (if k.handling.Some? then [k.handling.value] else []);
      assert head + (k.queue + [event]) == head + k.queue + [event];
    }
  }

  /** The event just sent is the next one the worker had to see. */
  lemma DeliveredInOrder(k: Worker, event: nat)
    requires InOrder(k, event) && Accounted(k, event)
    ensures InOrder(Delivered(k, event), event + 1) && Accounted(Delivered(k, event), event + 1)
  {
    DeliveredHistory(k, event);
    var h, h' := k.History(), Delivered(k, event).History();
    if |k.queue| < SUBSCRIBER_QUEUE_SIZE {
      assert forall i :: 0 <= i < |h| ==> h'[i] == h[i] && h[i] in h;
      assert forall x :: x in h' <==> x in h || x == event;
    }
  }

  /** An event taken for a worker that is not listed never concerns it. */
  lemma LaterIsFine(k: Worker, upto: nat)
    requires InOrder(k, upto)
    ensures InOrder(k, upto + 1)
  {
  }

  lemma SentKeeps(s: State)
    requires Inv(s) && s.pending.Some?
    ensures Inv(Sent(s))
  {
    var w, s' := s.pending.value[0], Sent(s);
    assert w in s.pending.value && Listed(s, w);
    assert w in s.workers;
    var rest := s.pending.value[1..];
    assert w !in rest;
    forall v | v in s'.workers ensures WorkerOK(s', v) {
      assert Listed(s', v) == Listed(s, v);
      if v == w {
        DeliveredInOrder(s.workers[w], s.started - 1);
      } else {
        assert v in s.pending.value <==> v in rest;
      }
    }
    forall v | v in rest ensures Listed(s', v) {
      assert v in s.pending.value && Listed(s, v);
    }
  }

  lemma LockKeeps(s: State)
    requires Inv(s)
    ensures Inv(Next(s, Lock))
  {
    var s' := Next(s, Lock);
    if s' != s {
      WorkersOfSubs(s.subs);
      forall w | w in s'.workers ensures WorkerOK(s', w) {
        if Listed(s', w) {
          var i :| 0 <= i < |s.subs| && s.subs[i].worker == w;
          assert WorkersOf(s.subs)[i] == w;
          assert Upto(s', w) == s.started == Upto(s, w) && Listed(s, w);
        } else {
          LaterIsFine(s.workers[w], s.started);
          assert s'.pending.Some? && w in s'.pending.value ==> Listed(s', w);
        }
      }
      if s'.pending.Some? {
        forall w | w in s'.pending.value ensures Listed(s', w) {
          var i :| 0 <= i < |s'.pending.value| && s'.pending.value[i] == w;
          assert s'.subs[i].worker == w;
        }
      }
    }
  }

  lemma UnsubscribeKeeps(s: State, id: string)
    requires Inv(s) && s.pending.None?
    ensures Inv(Removed(s, id)) && forall i :: 0 <= i < |Removed(s, id).subs| ==> Removed(s, id).subs[i].id != id
  {
    WithoutSub(s.subs, id);
    var s' := Removed(s, id);
    forall w | Listed(s', w) ensures Listed(s, w) {
      var i :| 0 <= i < |s'.subs| && s'.subs[i].worker == w;
      assert s'.subs[i] in s.subs;
    }
  }

  lemma NewWorkerFine(started: nat)
    ensures InOrder(Worker(started, [], None, [], {}, false), started)
    ensures Accounted(Worker(started, [], None, [], {}, false), started)
  {
    assert Worker(started, [], None, [], {}, false).History() == [];
  }

  lemma WorkerAdded(s: State, id: string, w: nat)
    requires Inv(s) && s.pending.None? && w !in s.workers && forall i :: 0 <= i < |s.subs| ==> s.subs[i].id != id
    ensures Inv(Joined(s, id, w))
  {
    var s' := Joined(s, id, w);
    NewWorkerFine(s.started);
    forall v | v in s'.workers ensures WorkerOK(s', v) {
      if v != w {
        assert Upto(s, v) == s.started;
        if Listed(s', v) {
          var i :| 0 <= i < |s'.subs| && s'.subs[i].worker == v;
          assert s.subs[i].worker == v && Listed(s, v);
        }
      }
    }
  }

  lemma SubscribeKeeps(s: State, id: string, w: nat)
    requires Inv(s) && s.pending.None? && !s.stopped && w !in s.workers
    ensures Inv(Joined(Removed(s, id), id, w))
  {
    UnsubscribeKeeps(s, id);
    WorkerAdded(Removed(s, id), id, w);
  }

  lemma WorkerStepKeeps(s: State, w: nat, k: Worker)
    requires Inv(s) && w in s.workers && k.History() == s.workers[w].History()
    requires k.since == s.workers[w].since && k.lost == s.workers[w].lost
    requires |k.queue| <= |s.workers[w].queue|
    ensures Inv(s.(workers := s.workers[w := k]))
  {
    var s' := s.(workers := s.workers[w := k]);
    forall v | v in s'.workers ensures WorkerOK(s', v) {
      assert Listed(s', v) == Listed(s, v);
    }
  }

  lemma NextKeeps(s: State, step: Step)
    requires Inv(s)
    ensures Inv(Next(s, step)) && Next(s, step).size == s.size
  {
    match step {
      case Lock => LockKeeps(s);
      case Send =>
        if s.pending.Some? {
          SentKeeps(s);
        }
      case Subscribe(id, w) =>
        if s.pending.None? && !s.stopped && w !in s.workers {
          SubscribeKeeps(s, id, w);
        }
      case Unsubscribe(id) =>
        if s.pending.None? {
          UnsubscribeKeeps(s, id);
        }
      case Receive(w) =>
        if w in s.workers && !s.workers[w].exited && s.workers[w].handling.None? && s.workers[w].queue != [] {
          var k := s.workers[w];
          ReceiveKeepsHistory(k);
          WorkerStepKeeps(s, w, k.(handling := Some(k.queue[0]), queue := k.queue[1..]));
        }
      case Handle(w) =>
        if w in s.workers && s.workers[w].handling.Some? {
          var k := s.workers[w];
          HandleKeepsHistory(k);
          WorkerStepKeeps(s, w, k.(handling := None, handled := k.handled + [k.handling.value]));
        }
      case Exit(w) =>
        if w in s.workers && s.workers[w].handling.None? && (w in s.quit || s.done) {
          WorkerStepKeeps(s, w, s.workers[w].(exited := true));
        }
      case _ => OtherStepKeeps(s, step);
    }
  }

  lemma OtherStepKeeps(s: State, step: Step)
    requires Inv(s) && (step.Publish? || step.Take? || step.StopDispatching? || step.Stop? || step.CloseDone?)
    ensures Inv(Next(s, step))
  {
    var s' := Next(s, step);
    CountersMoved(s, s.(accepted := s'.accepted, taken := s'.taken), s');
  }

  lemma CountersMoved(s: State, mid: State, s': State)
    requires Inv(s) && mid == s.(accepted := mid.accepted, taken := mid.taken)
    requires s' == mid.(dispatching := s'.dispatching, stopped := s'.stopped, done := s'.done)
    requires s'.started <= s'.taken <= s'.started + 1 && s'.taken <= s'.accepted && s'.accepted - s'.taken <= s'.size
    ensures Inv(s')
  {
    forall w ensures Listed(s', w) == Listed(s, w) && Upto(s', w) == Upto(s, w) {
    }
  }

  lemma {:induction false} RunKeeps(s: State, steps: seq<Step>)
    requires Inv(s)
    ensures Inv(Run(s, steps)) && Run(s, steps).size == s.size
    decreases |steps|
  {
    if steps != [] {
      NextKeeps(s, steps[0]);
      RunKeeps(Next(s, steps[0]), steps[1..]);
    }
  }

  ghost predicate Reachable(s: State) { exists size: int, steps :: s == Run(Start(size), steps) }

  /** A run can always go on, with any step. */
  lemma ReachesNext(s: State, step: Step)
    requires Reachable(s)
    ensures Reachable(Next(s, step)) && Reachable(Start(0))
  {
    var size: int, steps :| s == Run(Start(size), steps);
    RunThen(Start(size), steps, step);
    assert Start(0) == Run(Start(0), []);
  }

  lemma {:induction false} RunThen(s: State, steps: seq<Step>, step: Step)
    ensures Run(s, steps + [step]) == Next(Run(s, steps), step)
    decreases |steps|
  {
    if steps == [] {
      assert [] + [step] == [step] && Run(Next(s, step), [step][1..]) == Next(s, step);
    } else {
      RunThen(Next(s, steps[0]), steps[1..], step);
      assert (steps + [step])[1..] == steps[1..] + [step];
    }
  }

  lemma ReachableInv(s: State)
    requires Reachable(s)
    ensures Inv(s)
  {
    var size: int, steps :| s == Run(Start(size), steps);
    RunKeeps(Start(size), steps);
  }

  // ---------------------------------------------------------------------------
  // What a subscriber is promised
  // ---------------------------------------------------------------------------

  /** In every interleaving, what a subscriber has handled and still holds is without repeats
      and in order of acceptance, and is of events dispatched since it subscribed. */
  lemma DeliveredInPublicationOrder(s: State, w: nat)
    requires Reachable(s) && w in s.workers
    ensures Increasing(s.workers[w].History()) && |s.workers[w].queue| <= SUBSCRIBER_QUEUE_SIZE
    ensures forall x :: x in s.workers[w].History() ==> s.workers[w].since <= x < s.started <= s.taken <= s.accepted
  {
    ReachableInv(s);
    assert InOrder(s.workers[w], Upto(s, w));
  }

  /** While it stays subscribed it misses no event but those that found its queue full. */
  lemma NothingElseMissed(s: State, w: nat, x: nat)
    requires Reachable(s) && w in s.workers && Listed(s, w) && s.pending.None? && s.workers[w].since <= x < s.started
    ensures x in s.workers[w].History() <==> x !in s.workers[w].lost
  {
    ReachableInv(s);
    assert Accounted(s.workers[w], Upto(s, w));
  }

  /** Active ids are unique, and so are their workers. */
  lemma IdsUnique(s: State, i: nat, j: nat)
    requires Reachable(s) && i < |s.subs| && j < |s.subs|
    requires s.subs[i].id == s.subs[j].id || s.subs[i].worker == s.subs[j].worker
    ensures i == j
  {
    ReachableInv(s);
  }

  // ---------------------------------------------------------------------------
  // What each operation comes to
  // ---------------------------------------------------------------------------

  /** A new bus is empty, takes subscribers and dispatches; a size that is not positive is the default. */
  lemma StartsEmpty(size: int)
    ensures var s := Start(size);
      && s.size == (if size > 0 then size else 256) && s.accepted == s.taken == s.started == 0
      && s.subs == [] && s.workers == map[] && !s.stopped && !s.done && s.dispatching && s.pending.None?
  {
  }

  /** An event is refused just when as many as the bus can hold are waiting. */
  lemma AcceptedIff(s: State)
    requires Reachable(s)
    ensures s.size > 0 && s.accepted - s.taken <= s.size
    ensures Next(s, Publish) == s.(accepted := if s.accepted - s.taken == s.size then s.accepted else s.accepted + 1)
  {
    var size: int, steps :| s == Run(Start(size), steps);
    RunKeeps(Start(size), steps);
  }

  /** What a worker is left with when one more event has been sent to it. */
  predicate Got(k: Worker, k': Worker, x: nat) {
    && k'.History() == (if |k.queue| < 64 then k.History() + [x] else k.History())
    && k'.lost == (if |k.queue| < 64 then k.lost else k.lost + {x})
    && k'.since == k.since && k'.exited == k.exited && k'.handled == k.handled && k'.handling == k.handling
  }

  lemma DeliveredIsGot(k: Worker, x: nat)
    ensures Got(k, Delivered(k, x), x)
  {
    DeliveredHistory(k, x);
  }

  function Sends(n: nat): seq<Step> { seq(n, _ => Send) }

  /** What sending to the workers in `todo` comes to. */
  predicate SentTo(s: State, s': State, todo: seq<nat>)
    requires s.started > 0
  {
    && s'.pending.None? && s' == s.(pending := None, workers := s'.workers) && s'.workers.Keys == s.workers.Keys
    && forall w :: w in s.workers ==>
         if w in todo then Got(s.workers[w], s'.workers[w], s.started - 1) else s'.workers[w] == s.workers[w]
  }

  lemma SendFirst(s: State, todo: seq<nat>)
    requires s.pending == Some(todo) && todo != [] && s.started > 0 && todo[0] in s.workers
    ensures var s1, w := Next(s, Send), todo[0];
      && s1 == s.(pending := s1.pending, workers := s.workers[w := s1.workers[w]]) && w in s1.workers
      && s1.pending == (if |todo| == 1 then None else Some(todo[1..])) && s1.workers.Keys == s.workers.Keys
      && Got(s.workers[w], s1.workers[w], s.started - 1)
  {
    DeliveredIsGot(s.workers[todo[0]], s.started - 1);
  }

  /** The dispatcher goes through all that are pending, each once. */
  lemma {:induction false} SendAll(s: State, todo: seq<nat>)
    requires s.pending == Some(todo) && todo != [] && s.started > 0
    requires forall w :: w in todo ==> w in s.workers
    requires forall i, j :: 0 <= i < j < |todo| ==> todo[i] != todo[j]
    ensures SentTo(s, Run(s, Sends(|todo|)), todo)
    decreases |todo|
  {
    var s1, w, rest := Next(s, Send), todo[0], todo[1..];
    assert w in todo;
    SendFirst(s, todo);
    assert Sends(|todo|)[0] == Send && Sends(|todo|)[1..] == Sends(|rest|);
    assert forall v :: v in todo <==> v == w || v in rest;
    assert w !in rest;
    if rest == [] {
      assert Sends(0) == [] && Run(s1, []) == s1;
    } else {
      SendAll(s1, rest);
    }
  }

  lemma ThreeSteps(s: State, a: Step, b: Step, c: Step)
    ensures Run(s, [a, b, c]) == Next(Next(Next(s, a), b), c)
  {
    assert [a, b, c][1..] == [b, c] && [b, c][1..] == [c] && [c][1..] == [];
    assert Run(s, [a, b, c]) == Run(Next(s, a), [b, c]);
    assert Run(Next(s, a), [b, c]) == Run(Next(Next(s, a), b), [c]);
  }

  /** On a bus with nothing under way, one event published reaches every subscriber that has room
      for it, is dropped for the others, and concerns nobody else. */
  lemma OneEventReachesAll(s: State)
    requires Reachable(s) && s.dispatching && s.pending.None? && s.started == s.accepted
    ensures var s' := Run(Run(s, [Publish, Take, Lock]), Sends(|s.subs|));
      && s'.pending.None? && s'.subs == s.subs && s'.started == s'.taken == s'.accepted == s.accepted + 1
      && s'.workers.Keys == s.workers.Keys
      && forall w :: w in s.workers ==>
           if Listed(s, w) then Got(s.workers[w], s'.workers[w], s.accepted) else s'.workers[w] == s.workers[w]
  {
    ReachableInv(s);
    AcceptedIff(s);
    ThreeSteps(s, Publish, Take, Lock);
    WorkersOfSubs(s.subs);
    var s3 := Run(s, [Publish, Take, Lock]);
    var ws := WorkersOf(s.subs);
    forall w ensures w in ws <==> Listed(s, w) {
      if Listed(s, w) {
        var i :| 0 <= i < |s.subs| && s.subs[i].worker == w;
        assert ws[i] == w;
      }
    }
    if s.subs == [] {
      assert Sends(0) == [] && Run(s3, []) == s3;
    } else {
      SendAll(s3, ws);
    }
  }

  /** A worker that is free takes the oldest event it holds and finishes with it. */
  lemma HandlesOldest(s: State, w: nat)
    requires w in s.workers && !s.workers[w].exited && s.workers[w].handling.None? && s.workers[w].queue != []
    ensures var k := s.workers[w];
      Next(Next(s, Receive(w)), Handle(w)) ==
        s.(workers := s.workers[w := k.(handled := k.handled + [k.queue[0]], queue := k.queue[1..])])
  {
    var k, k' := s.workers[w], Next(s, Receive(w)).workers[w];
    assert Next(s, Receive(w)).workers[w := k'.(handling := None, handled := k'.handled + [k.queue[0]])]
        == s.workers[w := k.(handled := k.handled + [k.queue[0]], queue := k.queue[1..])];
  }

  /** A worker leaves only when told to, and never in the middle of an event; then it takes no more. */
  lemma ExitsIff(s: State, w: nat)
    requires w in s.workers && !s.workers[w].exited
    ensures Next(s, Exit(w)).workers.Keys == s.workers.Keys
    ensures Next(s, Exit(w)).workers[w].exited <==> s.workers[w].handling.None? && (w in s.quit || s.done)
    ensures Next(Next(s, Exit(w)), Receive(w)).workers[w].handled == s.workers[w].handled
    ensures Next(s, Exit(w)).workers[w].exited ==> Next(Next(s, Exit(w)), Receive(w)) == Next(s, Exit(w))
  {
  }

  /** A subscription: the id's earlier worker is told to quit, and the new one starts with nothing
      and is sent every event from now on; nobody else is concerned. */
  lemma SubscribedIs(s: State, id: string, w: nat)
    requires Reachable(s) && s.pending.None? && !s.stopped && w !in s.workers
    ensures var s' := Next(s, Subscribe(id, w));
      && Subscriber(id, w) in s'.subs && w in s'.workers && w !in s'.quit
      && s'.workers == s.workers[w := Worker(s.started, [], None, [], {}, false)]
      && (forall x :: x in s.subs ==> if x.id == id then x.worker in s'.quit && x !in s'.subs else x in s'.subs)
      && (forall x :: x in s'.subs ==> x == Subscriber(id, w) || x in s.subs)
      && (forall v :: v in s'.quit ==> v in s.quit || Subscriber(id, v) in s.subs)
  {
    ReachableInv(s);
    RemovedIs(s.subs, id);
    QuitIs(s.subs, id);
    assert forall x :: x in s.subs ==> x.worker in s.workers;
  }

  lemma UnsubscribedIs(s: State, id: string)
    requires Reachable(s) && s.pending.None?
    ensures var s' := Next(s, Unsubscribe(id));
      && s'.workers == s.workers
      && (forall x :: x in s.subs ==> if x.id == id then x.worker in s'.quit && x !in s'.subs else x in s'.subs)
      && (forall x :: x in s'.subs ==> x in s.subs)
      && (forall v :: v in s'.quit ==> v in s.quit || Subscriber(id, v) in s.subs)
  {
    ReachableInv(s);
    RemovedIs(s.subs, id);
    QuitIs(s.subs, id);
  }

  lemma RemovedIs(subs: seq<Subscriber>, id: string)
    requires forall i, j :: 0 <= i < j < |subs| ==> subs[i].id != subs[j].id
    ensures forall x :: x in Without(subs, id) <==> x in subs && x.id != id
  {
    if subs != [] {
      RemovedIs(subs[1..], id);
    }
  }

  lemma QuitIs(subs: seq<Subscriber>, id: string)
    requires forall i, j :: 0 <= i < j < |subs| ==> subs[i].id != subs[j].id
    ensures forall v :: v in Quitting(subs, id) <==> Subscriber(id, v) in subs
  {
    if subs != [] {
      QuitIs(subs[1..], id);
    }
  }

  /** Stopping: no subscription any more, the dispatcher ends between two events, and every worker
      that is not in the middle of one can leave. */
  lemma StopsForGood(s: State, id: string, w: nat)
    requires Reachable(s) && s.pending.None? && s.started == s.taken
    ensures var s' := Run(s, [Stop, CloseDone, StopDispatching]);
      && s' == s.(stopped := true, done := true, dispatching := false)
      && Next(s', Subscribe(id, w)) == s' && Next(s', Take) == s'
      && (w in s'.workers && s'.workers[w].handling.None? ==> Next(s', Exit(w)).workers[w].exited)
  {
    ThreeSteps(s, Stop, CloseDone, StopDispatching);
  }

  /** Nothing ends the bus but a Stop, and no dispatch is cut short by one. */
  lemma OnlyStopEnds(s: State, step: Step)
    requires Reachable(s)
    ensures var s' := Next(s, step);
      && (s'.stopped <==> s.stopped || (step.Stop? && s.pending.None?))
      && (s'.done <==> s.done || (step.CloseDone? && s.stopped))
      && (s'.dispatching <==>
            s.dispatching && !(step.StopDispatching? && s.done && s.pending.None? && s.started == s.taken))
  {
  }

  // ---------------------------------------------------------------------------
  // Subscribers do not disturb each other
  // ---------------------------------------------------------------------------

  /** The states differ at most in what one worker holds and has done. */
  predicate Alike(s: State, t: State, v: nat) {
    SharedAlike(s, t) && forall w :: w in s.workers && w != v ==> s.workers[w] == t.workers[w]
  }

  /** The worker a step may change, if any. */
  function Touched(s: State, step: Step): Option<nat> {
    match step
    case Send => if s.pending.Some? && s.pending.value != [] && s.started > 0 then Some(s.pending.value[0]) else None
    case Subscribe(_, w) => Some(w)
    case Receive(w) => Some(w)
    case Handle(w) => Some(w)
    case Exit(w) => Some(w)
    case _ => None
  }

  /** What becomes of a worker, seen from itself and from what all workers share. */
  function Changed(s: State, step: Step, k: Worker): Worker {
    match step
    case Send => Delivered(k, if s.started > 0 then s.started - 1 else 0)
    case Receive(_) =>
      if k.exited || k.handling.Some? || k.queue == [] then k
      else k.(handling := Some(k.queue[0]), queue := k.queue[1..])
    case Handle(_) => if k.handling.Some? then k.(handling := None, handled := k.handled + [k.handling.value]) else k
    case Exit(w) => if k.handling.None? && (w in s.quit || s.done) then k.(exited := true) else k
    case _ => k
  }

  /** No step looks at one worker to decide what happens to another. */
  lemma StepIsLocal(s: State, step: Step, w: nat)
    requires w in s.workers
    ensures w in Next(s, step).workers
    ensures Next(s, step).workers[w] ==
      if Touched(s, step) == Some(w) then Changed(s, step, s.workers[w]) else s.workers[w]
  {
  }

  predicate SharedAlike(s: State, t: State) { t == s.(workers := t.workers) && s.workers.Keys == t.workers.Keys }

  /** Nor to decide what happens to anything else. */
  lemma RestIsShared(s: State, t: State, step: Step)
    requires SharedAlike(s, t)
    ensures SharedAlike(Next(s, step), Next(t, step))
  {
    match step {
      case Send =>
        if s.pending.Some? && s.pending.value != [] && s.started > 0 {
          SendShared(s, t);
        }
      case Receive(w) => WorkerStepShared(s, t, step, w);
      case Handle(w) => WorkerStepShared(s, t, step, w);
      case Exit(w) => WorkerStepShared(s, t, step, w);
      case Subscribe(id, w) => SubscribeShared(s, t, id, w);
      case _ =>
    }
  }

  lemma WorkerStepShared(s: State, t: State, step: Step, w: nat)
    requires SharedAlike(s, t) && step in {Receive(w), Handle(w), Exit(w)}
    ensures SharedAlike(Next(s, step), Next(t, step))
  {
    KeysStay(s, step, w);
    KeysStay(t, step, w);
  }

  lemma SendShared(s: State, t: State)
    requires SharedAlike(s, t) && s.pending.Some? && s.pending.value != [] && s.started > 0
    ensures SharedAlike(Sent(s), Sent(t))
  {
    var w := s.pending.value[0];
    assert Sent(s).workers.Keys == s.workers.Keys && Sent(t).workers.Keys == t.workers.Keys;
  }

  lemma SubscribeShared(s: State, t: State, id: string, w: nat)
    requires SharedAlike(s, t)
    ensures SharedAlike(Next(s, Subscribe(id, w)), Next(t, Subscribe(id, w)))
  {
    if !(s.pending.Some? || s.stopped || w in s.workers) {
      assert Next(s, Subscribe(id, w)).workers.Keys == s.workers.Keys + {w};
      assert Next(t, Subscribe(id, w)).workers.Keys == t.workers.Keys + {w};
    }
  }

  lemma KeysStay(s: State, step: Step, w: nat)
    requires step in {Receive(w), Handle(w), Exit(w)}
    ensures Next(s, step).workers.Keys == s.workers.Keys && Next(s, step) == s.(workers := Next(s, step).workers)
  {
  }

  lemma NextAlike(s: State, t: State, v: nat, step: Step)
    requires Alike(s, t, v)
    ensures Alike(Next(s, step), Next(t, step), v)
  {
    RestIsShared(s, t, step);
    forall w | w in Next(s, step).workers && w != v ensures Next(s, step).workers[w] == Next(t, step).workers[w] {
      WorkerAlike(s, t, step, w);
    }
  }

  lemma WorkerAlike(s: State, t: State, step: Step, w: nat)
    requires SharedAlike(s, t) && (w in s.workers ==> s.workers[w] == t.workers[w])
    requires w in Next(s, step).workers && w in Next(t, step).workers
    ensures Next(s, step).workers[w] == Next(t, step).workers[w]
  {
    if w in s.workers {
      StepIsLocal(s, step, w);
      StepIsLocal(t, step, w);
    }
  }

  /** Whatever one subscriber's queue and handler are like, every other subscriber receives
      the same, for every interleaving. */
  lemma {:induction false} NoInterference(s: State, t: State, v: nat, steps: seq<Step>)
    requires Alike(s, t, v)
    ensures Alike(Run(s, steps), Run(t, steps), v)
    decreases |steps|
  {
    if steps != [] {
      NextAlike(s, t, v, steps[0]);
      NoInterference(Next(s, steps[0]), Next(t, steps[0]), v, steps[1..]);
    }
  }
}
