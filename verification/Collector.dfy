/** From kernel traffic counters to deltas: what is reported over any sequence of polls adds up
    to what the counters show. */
module Collector {
  import opened Text

  datatype PeerStat = PeerStat(publicKey: string, rxBytes: int, txBytes: int)

  datatype Counters = Counters(rx: int, tx: int)

  datatype PeerDelta = PeerDelta(publicKey: string, up: int, down: int)

  function Key(iface: string, publicKey: string): string { iface + "/" + publicKey }

  type Last = map<string, Counters>

  /** What one direction gained; a counter that fell started again from zero. */
  function Gain(prev: Option<int>, value: int): int {
    if prev.None? then value else if value - prev.value < 0 then value else value - prev.value
  }

  function Prev(last: Last, key: string): Option<Counters> { if key in last then Some(last[key]) else None }

  function Rx(c: Option<Counters>): Option<int> { if c.None? then None else Some(c.value.rx) }

  function Tx(c: Option<Counters>): Option<int> { if c.None? then None else Some(c.value.tx) }

  /** The counters after a poll's rows. */
  function Recorded(last: Last, iface: string, stats: seq<PeerStat>): Last {
    if stats == [] then last
    else
      var s := stats[|stats| - 1];
      Recorded(last, iface, stats[..|stats| - 1])[Key(iface, s.publicKey) := Counters(s.rxBytes, s.txBytes)]
  }

  /** A row that changed nothing gives no delta. */
  function WithRow(ds: seq<PeerDelta>, prev: Option<Counters>, s: PeerStat): seq<PeerDelta> {
    var up, down := Gain(Rx(prev), s.rxBytes), Gain(Tx(prev), s.txBytes);
    if up == 0 && down == 0 then ds else ds + [PeerDelta(s.publicKey, up, down)]
  }

  /** The deltas of a poll. */
  function Deltas(last: Last, iface: string, stats: seq<PeerStat>): seq<PeerDelta> {
    if stats == [] then []
    else
      var front, s := stats[..|stats| - 1], stats[|stats| - 1];
      WithRow(Deltas(last, iface, front), Prev(Recorded(last, iface, front), Key(iface, s.publicKey)), s)
  }

  predicate OfIface(key: string, iface: string) { iface + "/" <= key }

  function Dropped<V>(m: map<string, V>, iface: string): map<string, V> { map k | k in m && !OfIface(k, iface) :: m[k] }

  /** The public key belongs to a client. */
  predicate Active(clients: map<string, string>, publicKey: string) {
    publicKey != "" && publicKey in clients && clients[publicKey] != ""
  }

  predicate ActiveKey(iface: string, clients: map<string, string>, key: string) {
    OfIface(key, iface) && Active(clients, key[|iface| + 1..])
  }

  /** Without the interface's keys that belong to no client. */
  function Pruned<V>(m: map<string, V>, iface: string, clients: map<string, string>): map<string, V> {
    map k | k in m && (OfIface(k, iface) ==> ActiveKey(iface, clients, k)) :: m[k]
  }

  function ActiveEmails(iface: string, clients: map<string, string>): map<string, string> {
    map k | k in (set p | p in clients :: Key(iface, p)) && ActiveKey(iface, clients, k) :: clients[k[|iface| + 1..]]
  }

  type Sightings = seq<(string, int)>

  class Collector {
    var last: Last
    /** The addresses each peer was seen at, and when. */
    var endpoints: map<string, Sightings>
    /** The client each peer belongs to. */
    var emails: map<string, string>
    /** Each peer's latest handshake. */
    var handshakes: map<string, int>

    constructor ()
      ensures last == map[] && endpoints == map[] && emails == map[] && handshakes == map[]
    {
      last, endpoints, emails, handshakes := map[], map[], map[], map[];
    }

    method Delta(iface: string, stats: seq<PeerStat>) returns (out: seq<PeerDelta>)
      modifies `last
      ensures last == Recorded(old(last), iface, stats) && out == Deltas(old(last), iface, stats)
    {
      out := [];
      for i := 0 to |stats|
        invariant last == Recorded(old(last), iface, stats[..i]) && out == Deltas(old(last), iface, stats[..i])
      {
        assert stats[..i + 1][..i] == stats[..i];
        var s := stats[i];
        var k := Key(iface, s.publicKey);
        var up, down := s.rxBytes, s.txBytes;
        if k in last {
          up, down := s.rxBytes - last[k].rx, s.txBytes - last[k].tx;
          if up < 0 {
            up := s.rxBytes;
          }
          if down < 0 {
            down := s.txBytes;
          }
        }
        last := last[k := Counters(s.rxBytes, s.txBytes)];
        if up == 0 && down == 0 {
          continue;
        }
        out := out + [PeerDelta(s.publicKey, up, down)];
      }
      assert stats[..|stats|] == stats;
    }

    /** An adopted interface starts from its current counters. */
    method Prime(iface: string, stats: seq<PeerStat>)
      modifies `last
      ensures last == Recorded(Dropped(old(last), iface), iface, stats)
    {
      last := map k | k in last && !OfIface(k, iface) :: last[k];
      for i := 0 to |stats|
        invariant last == Recorded(Dropped(old(last), iface), iface, stats[..i])
      {
        assert stats[..i + 1][..i] == stats[..i];
        last := last[Key(iface, stats[i].publicKey) := Counters(stats[i].rxBytes, stats[i].txBytes)];
      }
      assert stats[..|stats|] == stats;
    }

    /** Drops every key of the interface from all four maps. */
    method Forget(iface: string)
      modifies this
      ensures last == Dropped(old(last), iface) && endpoints == Dropped(old(endpoints), iface)
      ensures emails == Dropped(old(emails), iface) && handshakes == Dropped(old(handshakes), iface)
    {
      last := map k | k in last && !OfIface(k, iface) :: last[k];
      endpoints := map k | k in endpoints && !OfIface(k, iface) :: endpoints[k];
      emails := map k | k in emails && !OfIface(k, iface) :: emails[k];
      handshakes := map k | k in handshakes && !OfIface(k, iface) :: handshakes[k];
    }

    /** SetEmails: peers that belong to no client any more are dropped from all four maps. */
    method SetEmails(iface: string, clients: map<string, string>)
      modifies this
      ensures last == Pruned(old(last), iface, clients) && endpoints == Pruned(old(endpoints), iface, clients)
      ensures handshakes == Pruned(old(handshakes), iface, clients)
      ensures emails == Pruned(old(emails), iface, clients) + ActiveEmails(iface, clients)
    {
      last := map k | k in last && (OfIface(k, iface) ==> ActiveKey(iface, clients, k)) :: last[k];
      endpoints := map k | k in endpoints && (OfIface(k, iface) ==> ActiveKey(iface, clients, k)) :: endpoints[k];
      handshakes := map k | k in handshakes && (OfIface(k, iface) ==> ActiveKey(iface, clients, k)) :: handshakes[k];
      emails := map k | k in emails && (OfIface(k, iface) ==> ActiveKey(iface, clients, k)) :: emails[k];
      emails := emails + ActiveEmails(iface, clients);
    }
  }

  // ---------------------------------------------------------------------------
  // Interfaces do not touch each other
  // ---------------------------------------------------------------------------

  predicate SlashFree(s: string) { '/' !in s }

  /** Interface names have no slash, so a key tells its interface although public keys may hold
      slashes. */
  lemma KeyTells(i: string, a: string, j: string, b: string)
    requires SlashFree(i) && SlashFree(j) && Key(i, a) == Key(j, b)
    ensures i == j && a == b
  {
    CutAt(i, "/", a);
    CutAt(j, "/", b);
    assert i + "/" + a == j + "/" + b;
  }

  lemma OwnPrefix(iface: string, j: string, b: string)
    requires SlashFree(iface) && SlashFree(j)
    ensures OfIface(Key(j, b), iface) <==> j == iface
  {
    if OfIface(Key(j, b), iface) {
      var rest := Key(j, b)[|iface| + 1..];
      assert Key(j, b) == Key(iface, rest);
      KeyTells(iface, rest, j, b);
    }
    if j == iface {
      assert Key(j, b)[..|iface| + 1] == iface + "/";
    }
  }

  function Owner(emails: map<string, string>, key: string): string { if key in emails then emails[key] else "" }

  lemma KeyParts(iface: string, publicKey: string)
    ensures OfIface(Key(iface, publicKey), iface) && Key(iface, publicKey)[|iface| + 1..] == publicKey
  {
    assert Key(iface, publicKey)[..|iface| + 1] == iface + "/";
  }

  /** A later inbound that reuses the interface's name inherits nothing. */
  lemma ForgottenWhole<V>(m: map<string, V>, iface: string, publicKey: string)
    ensures Key(iface, publicKey) !in Dropped(m, iface)
  {
    KeyParts(iface, publicKey);
  }

  /** After SetEmails a peer of the interface belongs to the client it was given for, or to none,
      and has a baseline only if it belongs to one; other interfaces' peers are as before. */
  lemma EmailsSet(emails: map<string, string>, last: Last, iface: string, clients: map<string, string>, j: string,
                  b: string)
    requires SlashFree(iface) && SlashFree(j)
    ensures var after := Pruned(emails, iface, clients) + ActiveEmails(iface, clients);
      Owner(after, Key(j, b)) ==
        if j != iface then Owner(emails, Key(j, b)) else if Active(clients, b) then clients[b] else ""
    ensures Prev(Pruned(last, iface, clients), Key(j, b)) ==
      if j != iface || Active(clients, b) then Prev(last, Key(j, b)) else None
  {
    OwnPrefix(iface, j, b);
    if j == iface {
      KeyParts(iface, b);
      assert Active(clients, b) ==> Key(iface, b) in (set p | p in clients :: Key(iface, p));
    }
  }

  /** Prime and Forget leave every other interface's counters alone. */
  lemma OthersUntouched(last: Last, iface: string, stats: seq<PeerStat>, j: string, b: string)
    requires SlashFree(iface) && SlashFree(j) && j != iface
    ensures Prev(Dropped(last, iface), Key(j, b)) == Prev(last, Key(j, b))
    ensures Prev(Recorded(last, iface, stats), Key(j, b)) == Prev(last, Key(j, b))
  {
    OwnPrefix(iface, j, b);
    if stats != [] {
      OthersUntouched(last, iface, stats[..|stats| - 1], j, b);
      if Key(j, b) == Key(iface, stats[|stats| - 1].publicKey) {
        KeyTells(j, b, iface, stats[|stats| - 1].publicKey);
      }
    }
  }

  // ---------------------------------------------------------------------------
  // Conservation
  // ---------------------------------------------------------------------------

  datatype Poll = Poll(iface: string, stats: seq<PeerStat>)

  function Value(s: PeerStat, rx: bool): int { if rx then s.rxBytes else s.txBytes }

  function At(c: Option<Counters>, rx: bool): Option<int> { if rx then Rx(c) else Tx(c) }

  function Amount(d: PeerDelta, rx: bool): int { if rx then d.up else d.down }

  /** The peer's counter values in a list of rows, in order. */
  function ValuesIn(stats: seq<PeerStat>, publicKey: string, rx: bool): seq<int> {
    if stats == [] then []
    else
      var front, s := ValuesIn(stats[..|stats| - 1], publicKey, rx), stats[|stats| - 1];
      if s.publicKey == publicKey then front + [Value(s, rx)] else front
  }

  /** What was reported for the peer. */
  function Reported(ds: seq<PeerDelta>, publicKey: string, rx: bool): int {
    if ds == [] then 0
    else
      var d := ds[|ds| - 1];
      Reported(ds[..|ds| - 1], publicKey, rx) + if d.publicKey == publicKey then Amount(d, rx) else 0
  }

  /** The gains of a counter that shows these values one after another. */
  function Gains(prev: Option<int>, values: seq<int>): int {
    if values == [] then 0
    else Gains(prev, values[..|values| - 1]) + Gain(LastOf(prev, values[..|values| - 1]), values[|values| - 1])
  }

  function LastOf(prev: Option<int>, values: seq<int>): Option<int> {
    if values == [] then prev else Some(values[|values| - 1])
  }

  function Row(s: PeerStat): Counters { Counters(s.rxBytes, s.txBytes) }

  /** One row moves the counters of its own peer only. */
  lemma RowRecorded(before: Last, iface: string, s: PeerStat, publicKey: string, rx: bool)
    requires SlashFree(iface)
    ensures At(Prev(before[Key(iface, s.publicKey) := Row(s)], Key(iface, publicKey)), rx) ==
      if s.publicKey == publicKey then Some(Value(s, rx)) else At(Prev(before, Key(iface, publicKey)), rx)
  {
    if Key(iface, s.publicKey) == Key(iface, publicKey) {
      KeyTells(iface, s.publicKey, iface, publicKey);
    }
  }

  /** And reports its peer's gain, leaving a row out only when it gained nothing. */
  lemma RowReported(ds: seq<PeerDelta>, prev: Option<Counters>, s: PeerStat, publicKey: string, rx: bool)
    ensures Reported(WithRow(ds, prev, s), publicKey, rx)
      == Reported(ds, publicKey, rx) + (if s.publicKey == publicKey then Gain(At(prev, rx), Value(s, rx)) else 0)
  {
    ReportedNext(ds, PeerDelta(s.publicKey, Gain(Rx(prev), s.rxBytes), Gain(Tx(prev), s.txBytes)), publicKey, rx);
  }

  lemma {:induction false} PollRemembers(last: Last, iface: string, stats: seq<PeerStat>, publicKey: string, rx: bool)
    requires SlashFree(iface)
    ensures At(Prev(Recorded(last, iface, stats), Key(iface, publicKey)), rx)
      == LastOf(At(Prev(last, Key(iface, publicKey)), rx), ValuesIn(stats, publicKey, rx))
  {
    if stats != [] {
      PollRemembers(last, iface, stats[..|stats| - 1], publicKey, rx);
      RowRecorded(Recorded(last, iface, stats[..|stats| - 1]), iface, stats[|stats| - 1], publicKey, rx);
    }
  }

  /** One poll reports exactly the gains of the peer's counter. */
  lemma {:induction false} PollReports(last: Last, iface: string, stats: seq<PeerStat>, publicKey: string, rx: bool)
    requires SlashFree(iface)
    ensures Reported(Deltas(last, iface, stats), publicKey, rx)
      == Gains(At(Prev(last, Key(iface, publicKey)), rx), ValuesIn(stats, publicKey, rx))
  {
    if stats != [] {
      var front, s := stats[..|stats| - 1], stats[|stats| - 1];
      var prev := Prev(Recorded(last, iface, front), Key(iface, s.publicKey));
      PollReports(last, iface, front, publicKey, rx);
      PollRemembers(last, iface, front, publicKey, rx);
      RowReported(Deltas(last, iface, front), prev, s, publicKey, rx);
      GainsNext(At(Prev(last, Key(iface, publicKey)), rx), ValuesIn(front, publicKey, rx), Value(s, rx));
    }
  }

  lemma GainsNext(prev: Option<int>, values: seq<int>, v: int)
    ensures Gains(prev, values + [v]) == Gains(prev, values) + Gain(LastOf(prev, values), v)
    ensures LastOf(prev, values + [v]) == Some(v)
  {
    assert (values + [v])[..|values|] == values;
  }

  lemma ReportedNext(ds: seq<PeerDelta>, d: PeerDelta, publicKey: string, rx: bool)
    ensures Reported(ds + [d], publicKey, rx) ==
      Reported(ds, publicKey, rx) + (if d.publicKey == publicKey then Amount(d, rx) else 0)
  {
    assert (ds + [d])[..|ds|] == ds;
  }

  function AfterPolls(last: Last, polls: seq<Poll>): Last {
    if polls == [] then last
    else var p := polls[|polls| - 1]; Recorded(AfterPolls(last, polls[..|polls| - 1]), p.iface, p.stats)
  }

  /** The peer's deltas over a run of polls of any interfaces. */
  function TotalReported(last: Last, polls: seq<Poll>, iface: string, publicKey: string, rx: bool): int {
    if polls == [] then 0
    else
      var front, p := polls[..|polls| - 1], polls[|polls| - 1];
      TotalReported(last, front, iface, publicKey, rx)
      + if p.iface == iface then Reported(Deltas(AfterPolls(last, front), iface, p.stats), publicKey, rx) else 0
  }

  function AllValues(polls: seq<Poll>, iface: string, publicKey: string, rx: bool): seq<int> {
    if polls == [] then []
    else
      var front, p := AllValues(polls[..|polls| - 1], iface, publicKey, rx), polls[|polls| - 1];
      if p.iface == iface then front + ValuesIn(p.stats, publicKey, rx) else front
  }

  lemma {:induction false} GainsAppend(prev: Option<int>, a: seq<int>, b: seq<int>)
    ensures Gains(prev, a + b) == Gains(prev, a) + Gains(LastOf(prev, a), b)
    ensures LastOf(prev, a + b) == LastOf(LastOf(prev, a), b)
    decreases |b|
  {
    if b == [] {
      assert a + b == a;
    } else {
      GainsAppend(prev, a, b[..|b| - 1]);
      assert (a + b)[..|a + b| - 1] == a + b[..|b| - 1];
    }
  }

  lemma {:induction false} RunReports(last: Last, polls: seq<Poll>, iface: string, publicKey: string, rx: bool)
    requires SlashFree(iface) && forall p :: p in polls ==> SlashFree(p.iface)
    ensures
      var prev, values := At(Prev(last, Key(iface, publicKey)), rx), AllValues(polls, iface, publicKey, rx);
      && TotalReported(last, polls, iface, publicKey, rx) == Gains(prev, values)
      && At(Prev(AfterPolls(last, polls), Key(iface, publicKey)), rx) == LastOf(prev, values)
  {
    if polls != [] {
      var front, p := polls[..|polls| - 1], polls[|polls| - 1];
      RunReports(last, front, iface, publicKey, rx);
      var prev, values := At(Prev(last, Key(iface, publicKey)), rx), AllValues(front, iface, publicKey, rx);
      if p.iface == iface {
        PollReports(AfterPolls(last, front), iface, p.stats, publicKey, rx);
        PollRemembers(AfterPolls(last, front), iface, p.stats, publicKey, rx);
        GainsAppend(prev, values, ValuesIn(p.stats, publicKey, rx));
      } else {
        assert p in polls;
        OthersUntouched(AfterPolls(last, front), p.iface, p.stats, iface, publicKey);
      }
    }
  }

  /** After Prime the peer's baseline is the value primed, and a peer without a row has none. */
  lemma PrimeSetsBaseline(last: Last, iface: string, stats: seq<PeerStat>, publicKey: string, rx: bool)
    requires SlashFree(iface)
    ensures At(Prev(Recorded(Dropped(last, iface), iface, stats), Key(iface, publicKey)), rx) ==
      LastOf(None, ValuesIn(stats, publicKey, rx))
  {
    OwnPrefix(iface, iface, publicKey);
    PollRemembers(Dropped(last, iface), iface, stats, publicKey, rx);
  }

  /** The values the counter had just before it fell. */
  function Lost(prev: Option<int>, values: seq<int>): int {
    if values == [] then 0
    else
      var before := LastOf(prev, values[..|values| - 1]);
      Lost(prev, values[..|values| - 1])
      + if before.Some? && values[|values| - 1] < before.value then before.value else 0
  }

  function Baseline(prev: Option<int>): int { if prev.None? then 0 else prev.value }

  /** Gains are never negative, and they add up to the last value minus the baseline, plus what
      the counter showed each time before it fell. */
  lemma {:induction false} GainsAddUp(prev: Option<int>, values: seq<int>)
    requires prev.Some? ==> prev.value >= 0
    requires forall i :: 0 <= i < |values| ==> values[i] >= 0
    ensures Gains(prev, values) == Baseline(LastOf(prev, values)) - Baseline(prev) + Lost(prev, values)
    ensures Gains(prev, values) >= 0 && Baseline(LastOf(prev, values)) >= 0
  {
    if values != [] {
      var front := values[..|values| - 1];
      GainsAddUp(prev, front);
    }
  }

  /** Over any polls, one direction of a peer's reported traffic is what its counter shows at the
      end, minus the baseline, plus what every restart wiped out; the baseline is zero for a
      peer first seen in the run. */
  lemma TrafficConserved(last: Last, polls: seq<Poll>, iface: string, publicKey: string, rx: bool)
    requires SlashFree(iface) && forall p :: p in polls ==> SlashFree(p.iface)
    requires At(Prev(last, Key(iface, publicKey)), rx).Some? ==> At(Prev(last, Key(iface, publicKey)), rx).value >= 0
    requires forall i :: 0 <= i < |AllValues(polls, iface, publicKey, rx)| ==>
      AllValues(polls, iface, publicKey, rx)[i] >= 0
    ensures
      var prev, values := At(Prev(last, Key(iface, publicKey)), rx), AllValues(polls, iface, publicKey, rx);
      TotalReported(last, polls, iface, publicKey, rx) ==
        Baseline(LastOf(prev, values)) - Baseline(prev) + Lost(prev, values)
  {
    RunReports(last, polls, iface, publicKey, rx);
    GainsAddUp(At(Prev(last, Key(iface, publicKey)), rx), AllValues(polls, iface, publicKey, rx));
  }

  lemma {:induction false} MonotoneLosesNothing(prev: Option<int>, values: seq<int>)
    requires forall i, j :: 0 <= i < j < |values| ==> values[i] <= values[j]
    requires prev.Some? && values != [] ==> prev.value <= values[0]
    ensures Lost(prev, values) == 0
  {
    if values != [] {
      MonotoneLosesNothing(prev, values[..|values| - 1]);
    }
  }

  /** Every delta of a poll with counters that are not negative is not negative. */
  lemma {:induction false} DeltasNotNegative(last: Last, iface: string, stats: seq<PeerStat>)
    requires forall s :: s in stats ==> s.rxBytes >= 0 && s.txBytes >= 0
    ensures forall d :: d in Deltas(last, iface, stats) ==> d.up >= 0 && d.down >= 0 && (d.up > 0 || d.down > 0)
  {
    if stats != [] {
      assert stats[|stats| - 1] in stats;
      DeltasNotNegative(last, iface, stats[..|stats| - 1]);
    }
  }
}
