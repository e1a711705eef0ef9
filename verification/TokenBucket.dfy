/** The login rate limiter of the Uptime Kuma decoy: one token bucket for each client, full at
    first sight, from which refused calls are taken too. Times are in seconds. */
module TokenBucket {

  const CAPACITY: real := 20.0

  datatype Bucket = Bucket(tokens: real, lastRefill: real)

  function Min(a: real, b: real): real { if a < b then a else b }

  /** The whole capacity comes back every minute. */
  function Refill(seconds: real): (tokens: real)
    ensures tokens == seconds / 3.0
  {
    seconds * (20.0 / 60.0)
  }

  /** The bucket after a call at `now`; the call is allowed when nothing is owed. */
  function Taken(b: Bucket, now: real): Bucket {
    Bucket(Min(CAPACITY, b.tokens + Refill(now - b.lastRefill)) - 1.0, now)
  }

  function Fresh(now: real): Bucket { Bucket(CAPACITY, now) }

  class Buckets {
    var state: map<string, Bucket>

    constructor ()
      ensures state == map[]
    {
      state := map[];
    }

    /** take; a blank key is never limited. */
    method Take(key: string, now: real) returns (allowed: bool)
      modifies this
      ensures key == "" ==> allowed && state == old(state)
      ensures key != "" ==>
        var b := Taken(if key in old(state) then old(state)[key] else Fresh(now), now);
        state == old(state)[key := b] && allowed == (b.tokens >= 0.0)
    {
      if key == "" {
        return true;
      }
      var s := if key in state then state[key] else Fresh(now);
      s := Bucket(Min(CAPACITY, s.tokens + Refill(now - s.lastRefill)), now);
      s := s.(tokens := s.tokens - 1.0);
      state := state[key := s];
      allowed := s.tokens >= 0.0;
    }
  }

  // ---------------------------------------------------------------------------
  // Calls on one key
  // ---------------------------------------------------------------------------

  /** The bucket after the calls at these times, from first sight. */
  function After(times: seq<real>): Bucket
    requires times != []
  {
    var now := times[|times| - 1];
    Taken(if |times| == 1 then Fresh(now) else After(times[..|times| - 1]), now)
  }

  predicate Monotone(times: seq<real>) { forall i, j :: 0 <= i <= j < |times| ==> times[i] <= times[j] }

  predicate Allowed(times: seq<real>, j: nat)
    requires j < |times|
  {
    After(times[..j + 1]).tokens >= 0.0
  }

  /** What is left of a full bucket if the calls i to j had been the only ones. */
  function Left(times: seq<real>, i: nat, j: nat): real
    requires i <= j < |times|
  {
    CAPACITY - (j - i + 1) as real + (times[j] - times[i]) / 3.0
  }

  /** The bucket holds the least any window ending now would leave. */
  lemma {:induction false} LeastWindow(times: seq<real>, j: nat)
    requires Monotone(times) && j < |times|
    ensures After(times[..j + 1]).lastRefill == times[j]
    ensures forall i :: 0 <= i <= j ==> After(times[..j + 1]).tokens <= Left(times, i, j)
    ensures exists i :: 0 <= i <= j && After(times[..j + 1]).tokens == Left(times, i, j)
  {
    var now := times[..j + 1];
    assert now[|now| - 1] == times[j];
    assert Left(times, j, j) == CAPACITY - 1.0;
    if j > 0 {
      assert now[..|now| - 1] == times[..j];
      LeastWindow(times, j - 1);
      var earned := (times[j] - times[j - 1]) / 3.0;
      forall i | 0 <= i <= j - 1 ensures Left(times, i, j) == Left(times, i, j - 1) + earned - 1.0 {
        LeftStep(times, i, j);
      }
      var k :| 0 <= k <= j - 1 && After(times[..j]).tokens == Left(times, k, j - 1);
      assert After(now).tokens == Left(times, j, j) || After(now).tokens == Left(times, k, j);
    }
  }

  lemma LeftStep(times: seq<real>, i: nat, j: nat)
    requires i < j < |times|
    ensures Left(times, i, j) == Left(times, i, j - 1) + (times[j] - times[j - 1]) / 3.0 - 1.0
  {
    assert (j - i + 1) as real == (j - 1 - i + 1) as real + 1.0;
  }

  /** A call is allowed exactly when every window that ends with it, refused calls counted,
      holds at most twenty calls and one more for every three seconds it spans. */
  lemma AllowedIff(times: seq<real>, j: nat)
    requires Monotone(times) && j < |times|
    ensures Allowed(times, j) <==> forall i :: 0 <= i <= j ==> (j - i + 1) as real <= 20.0 + (times[j] - times[i]) / 3.0
  {
    LeastWindow(times, j);
    forall i | 0 <= i <= j
      ensures Left(times, i, j) >= 0.0 <==> (j - i + 1) as real <= 20.0 + (times[j] - times[i]) / 3.0 {
    }
  }

  /** The bound for one window. */
  lemma WindowBound(times: seq<real>, i: nat, j: nat)
    requires Monotone(times) && i <= j < |times| && Allowed(times, j)
    ensures (j - i + 1) as real <= 20.0 + (times[j] - times[i]) / 3.0
  {
    AllowedIff(times, j);
  }

  // ---------------------------------------------------------------------------
  // Calls of many clients, interleaved
  // ---------------------------------------------------------------------------

  datatype Call = Call(key: string, now: real)

  /** When this client called. */
  function TimesOf(calls: seq<Call>, key: string): seq<real> {
    if calls == [] then []
    else
      var front, c := TimesOf(calls[..|calls| - 1], key), calls[|calls| - 1];
      if c.key == key then front + [c.now] else front
  }

  predicate InTime(calls: seq<Call>) { forall i, j :: 0 <= i <= j < |calls| ==> calls[i].now <= calls[j].now }

  /** Every window of the client's calls that ends now is within the limit. */
  predicate WithinLimit(times: seq<real>)
    requires times != []
  {
    forall i :: 0 <= i < |times| ==> (|times| - i) as real <= 20.0 + (times[|times| - 1] - times[i]) / 3.0
  }

  lemma {:induction false} TimesInOrder(calls: seq<Call>, key: string)
    requires InTime(calls)
    ensures Monotone(TimesOf(calls, key))
    ensures forall i :: 0 <= i < |TimesOf(calls, key)| ==> TimesOf(calls, key)[i] <= calls[|calls| - 1].now
    ensures TimesOf(calls, key) != [] ==> calls != []
  {
    if calls != [] {
      TimesInOrder(calls[..|calls| - 1], key);
    }
  }

  lemma WithinIff(times: seq<real>)
    requires Monotone(times) && times != []
    ensures After(times).tokens >= 0.0 <==> WithinLimit(times)
  {
    var j := |times| - 1;
    AllowedIff(times, j);
    assert times[..j + 1] == times;
  }

  /** Each client's bucket is what its own calls alone have made of it. */
  ghost predicate Separate(state: map<string, Bucket>, calls: seq<Call>) {
    forall key: string :: key != "" ==>
      (key in state <==> TimesOf(calls, key) != []) && (key in state ==> state[key] == After(TimesOf(calls, key)))
  }

  lemma CallAdded(calls: seq<Call>, c: Call, key: string)
    ensures TimesOf(calls + [c], key) == if c.key == key then TimesOf(calls, key) + [c.now] else TimesOf(calls, key)
  {
    assert (calls + [c])[..|calls|] == calls;
  }

  lemma AfterOneMore(times: seq<real>, now: real)
    ensures After(times + [now]) == Taken(if times == [] then Fresh(now) else After(times), now)
  {
    assert (times + [now])[..|times|] == times;
  }

  lemma StaysSeparate(state: map<string, Bucket>, calls: seq<Call>, c: Call)
    requires Separate(state, calls)
    ensures c.key == "" ==> Separate(state, calls + [c])
    ensures c.key != "" ==>
      var b := Taken(if c.key in state then state[c.key] else Fresh(c.now), c.now);
      b == After(TimesOf(calls + [c], c.key)) && Separate(state[c.key := b], calls + [c])
  {
    forall key: string
      ensures TimesOf(calls + [c], key) == if c.key == key then TimesOf(calls, key) + [c.now] else TimesOf(calls, key) {
      CallAdded(calls, c, key);
    }
    AfterOneMore(TimesOf(calls, c.key), c.now);
  }

  /** Any calls of any clients, from an empty limiter: a call is allowed just when its client's
      own calls so far keep within the limit, whatever the others do. */
  method TakeEach(b: Buckets, calls: seq<Call>) returns (allowed: seq<bool>)
    requires b.state == map[] && InTime(calls)
    modifies b
    ensures |allowed| == |calls|
    ensures forall i :: 0 <= i < |calls| ==> (allowed[i] <==> CallAllowed(calls, i))
  {
    allowed := [];
    for k := 0 to |calls|
      invariant Separate(b.state, calls[..k]) && |allowed| == k
      invariant forall i :: 0 <= i < k ==> (allowed[i] <==> CallAllowed(calls, i))
    {
      StaysSeparate(b.state, calls[..k], calls[k]);
      assert calls[..k + 1] == calls[..k] + [calls[k]];
      var ok := b.Take(calls[k].key, calls[k].now);
      CallAllowedIff(calls, k);
      allowed := allowed + [ok];
    }
  }

  predicate CallAllowed(calls: seq<Call>, i: nat)
    requires i < |calls|
  {
    calls[i].key == "" || (var times := TimesOf(calls[..i + 1], calls[i].key); times != [] && WithinLimit(times))
  }

  lemma CallAllowedIff(calls: seq<Call>, i: nat)
    requires i < |calls| && InTime(calls)
    ensures TimesOf(calls[..i + 1], calls[i].key) != []
    ensures CallAllowed(calls, i) <==>
      calls[i].key == "" || After(TimesOf(calls[..i + 1], calls[i].key)).tokens >= 0.0
  {
    assert calls[..i + 1] == calls[..i] + [calls[i]];
    CallAdded(calls[..i], calls[i], calls[i].key);
    TimesInOrder(calls[..i + 1], calls[i].key);
    WithinIff(TimesOf(calls[..i + 1], calls[i].key));
  }
}
