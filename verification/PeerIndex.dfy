/** Which peer a tunnel-internal source address belongs to: a scan over the peers' allowed
    prefixes that is the longest-prefix match of a routing table. */
module PeerIndex {
  import opened Text
  import opened Amnezia

  datatype Addr = Addr(v6: bool, bits: seq<bool>)

  /** As parsed: the address keeps its host bits. */
  datatype Prefix = Prefix(addr: Addr, len: nat) {
    predicate Valid() { len <= |addr.bits| }

    predicate Contains(a: Addr)
      requires Valid()
    {
      a.v6 == addr.v6 && len <= |a.bits| && a.bits[..len] == addr.bits[..len]
    }

    function Masked(): Addr
      requires Valid()
    {
      Addr(addr.v6, addr.bits[..len])
    }
  }

  type ValidPrefix = p: Prefix | p.Valid() witness Prefix(Addr(false, []), 0)

  /** netip.ParsePrefix. */
  type Parser = string -> Option<ValidPrefix>

  datatype Entry = Entry(prefix: ValidPrefix, peer: Peer)

  function EntriesOfPeer(parse: Parser, ips: seq<string>, p: Peer): seq<Entry> {
    if ips == [] then []
    else if parse(ips[0]).None? then EntriesOfPeer(parse, ips[1..], p)
    else [Entry(parse(ips[0]).value, p)] + EntriesOfPeer(parse, ips[1..], p)
  }

  /** NewPeerIndex; an unparseable prefix is skipped. */
  function Entries(parse: Parser, peers: seq<Peer>): seq<Entry> {
    if peers == [] then [] else EntriesOfPeer(parse, peers[0].allowedIPs, peers[0]) + Entries(parse, peers[1..])
  }

  method NewPeerIndex(parse: Parser, peers: seq<Peer>) returns (entries: seq<Entry>)
    ensures entries == Entries(parse, peers)
  {
    entries := [];
    for i := 0 to |peers|
      invariant entries + Entries(parse, peers[i..]) == Entries(parse, peers)
    {
      var own := EntriesOf(parse, peers[i]);
      assert peers[i..][1..] == peers[i + 1..];
      assert entries + (own + Entries(parse, peers[i + 1..])) == entries + own + Entries(parse, peers[i + 1..]);
      entries := entries + own;
    }
  }

  method EntriesOf(parse: Parser, p: Peer) returns (entries: seq<Entry>)
    ensures entries == EntriesOfPeer(parse, p.allowedIPs, p)
  {
    entries := [];
    for j := 0 to |p.allowedIPs|
      invariant entries + EntriesOfPeer(parse, p.allowedIPs[j..], p) == EntriesOfPeer(parse, p.allowedIPs, p)
    {
      assert p.allowedIPs[j..][1..] == p.allowedIPs[j + 1..];
      var prefix := parse(p.allowedIPs[j]);
      if prefix.Some? {
        entries := entries + [Entry(prefix.value, p)];
      }
    }
  }

  // ---------------------------------------------------------------------------
  // The routing table the index stands for
  // ---------------------------------------------------------------------------

  /** A table of masked prefixes in which a later equal prefix replaces an earlier one. */
  function Table(entries: seq<Entry>): map<Addr, Peer> {
    if entries == [] then map[]
    else var last := entries[|entries| - 1]; Table(entries[..|entries| - 1])[last.prefix.Masked() := last.peer]
  }

  /** The longest prefix of a, of at most n bits, that the table has. */
  function Longest(table: map<Addr, Peer>, a: Addr, n: nat): Option<Peer>
    requires n <= |a.bits|
  {
    var key := Addr(a.v6, a.bits[..n]);
    if key in table then Some(table[key]) else if n == 0 then None else Longest(table, a, n - 1)
  }

  /** The length of that prefix, or -1. */
  function LongestBits(table: map<Addr, Peer>, a: Addr, n: nat): int
    requires n <= |a.bits|
  {
    if Addr(a.v6, a.bits[..n]) in table then n else if n == 0 then -1 else LongestBits(table, a, n - 1)
  }

  /** An entry whose prefix does not contain a never matters to a. */
  lemma {:induction false} MissChangesNothing(table: map<Addr, Peer>, e: Entry, a: Addr, n: nat)
    requires n <= |a.bits| && !e.prefix.Contains(a)
    ensures Longest(table[e.prefix.Masked() := e.peer], a, n) == Longest(table, a, n)
    ensures LongestBits(table[e.prefix.Masked() := e.peer], a, n) == LongestBits(table, a, n)
  {
    assert |e.prefix.addr.bits[..e.prefix.len]| == e.prefix.len && |a.bits[..n]| == n;
    if n > 0 {
      MissChangesNothing(table, e, a, n - 1);
    }
  }

  /** One that contains a wins over shorter prefixes and over earlier equal ones. */
  lemma {:induction false} HitWins(table: map<Addr, Peer>, e: Entry, a: Addr, n: nat)
    requires e.prefix.Contains(a) && e.prefix.len <= n <= |a.bits|
    ensures
      var t := table[e.prefix.Masked() := e.peer];
      if LongestBits(table, a, n) > e.prefix.len
      then Longest(t, a, n) == Longest(table, a, n) && LongestBits(t, a, n) == LongestBits(table, a, n)
      else Longest(t, a, n) == Some(e.peer) && LongestBits(t, a, n) == e.prefix.len
  {
    var key := Addr(a.v6, a.bits[..n]);
    assert e.prefix.Masked() == Addr(a.v6, a.bits[..e.prefix.len]);
    if n == e.prefix.len {
      LongestBound(table, a, n);
    } else {
      assert |a.bits[..n]| == n && |a.bits[..e.prefix.len]| == e.prefix.len;
      HitWins(table, e, a, n - 1);
    }
  }

  lemma {:induction false} LongestBound(table: map<Addr, Peer>, a: Addr, n: nat)
    requires n <= |a.bits|
    ensures LongestBits(table, a, n) <= n
    ensures LongestBits(table, a, n) < 0 <==> Longest(table, a, n).None?
  {
    if n > 0 {
      LongestBound(table, a, n - 1);
    }
  }

  /** Lookup: the scan gives the routing table's answer. */
  method Lookup(entries: seq<Entry>, a: Addr) returns (peer: Option<Peer>)
    ensures peer == Longest(Table(entries), a, |a.bits|)
  {
    var bestBits: int := -1;
    var bestPeer: Option<Peer> := None;
    NothingInEmpty(a, |a.bits|);
    for i := 0 to |entries|
      invariant bestBits == LongestBits(Table(entries[..i]), a, |a.bits|)
      invariant bestPeer == Longest(Table(entries[..i]), a, |a.bits|)
    {
      var e := entries[i];
      assert entries[..i + 1][..i] == entries[..i];
      if e.prefix.Contains(a) {
        HitWins(Table(entries[..i]), e, a, |a.bits|);
      } else {
        MissChangesNothing(Table(entries[..i]), e, a, |a.bits|);
      }
      if e.prefix.len < bestBits || !e.prefix.Contains(a) {
        continue;
      }
      bestBits, bestPeer := e.prefix.len, Some(e.peer);
    }
    assert entries[..|entries|] == entries;
    LongestBound(Table(entries), a, |a.bits|);
    if bestBits < 0 {
      return None;
    }
    peer := bestPeer;
  }

  lemma {:induction false} NothingInEmpty(a: Addr, n: nat)
    requires n <= |a.bits|
    ensures LongestBits(map[], a, n) == -1 && Longest(map[], a, n) == None
  {
    if n > 0 {
      NothingInEmpty(a, n - 1);
    }
  }

  /** Who owns the address, by the peers' settings. */
  function Owner(parse: Parser, peers: seq<Peer>, a: Addr): Option<Peer> {
    Longest(Table(Entries(parse, peers)), a, |a.bits|)
  }

  /** Not found exactly when no entry contains the address. */
  lemma {:induction false} OwnerExists(entries: seq<Entry>, a: Addr)
    ensures Longest(Table(entries), a, |a.bits|).Some? <==>
      exists i :: 0 <= i < |entries| && entries[i].prefix.Contains(a)
  {
    NothingInEmpty(a, |a.bits|);
    LongestBound(Table(entries), a, |a.bits|);
    if entries != [] {
      var front, last := entries[..|entries| - 1], entries[|entries| - 1];
      OwnerExists(front, a);
      LongestBound(Table(front), a, |a.bits|);
      if last.prefix.Contains(a) {
        HitWins(Table(front), last, a, |a.bits|);
        assert entries[|entries| - 1].prefix.Contains(a);
      } else {
        MissChangesNothing(Table(front), last, a, |a.bits|);
        assert forall i :: 0 <= i < |front| ==> front[i] == entries[i];
      }
    }
  }

  /** The owner's entry contains the address, and no containing entry is longer, or equally
      long and later. */
  lemma {:induction false} OwnerIsMostSpecific(entries: seq<Entry>, a: Addr, i: nat)
    requires i < |entries| && entries[i].prefix.Contains(a)
    requires forall j :: 0 <= j < |entries| && entries[j].prefix.Contains(a) ==>
      entries[j].prefix.len <= entries[i].prefix.len
    requires forall j :: i < j < |entries| && entries[j].prefix.Contains(a) ==>
      entries[j].prefix.len < entries[i].prefix.len
    ensures Longest(Table(entries), a, |a.bits|) == Some(entries[i].peer)
    ensures LongestBits(Table(entries), a, |a.bits|) == entries[i].prefix.len
  {
    var front, last := entries[..|entries| - 1], entries[|entries| - 1];
    LongestBound(Table(front), a, |a.bits|);
    if i == |entries| - 1 {
      HitWins(Table(front), last, a, |a.bits|);
      BoundedBits(front, a, last.prefix.len);
    } else {
      assert front[i] == entries[i];
      OwnerIsMostSpecific(front, a, i);
      if last.prefix.Contains(a) {
        HitWins(Table(front), last, a, |a.bits|);
      } else {
        MissChangesNothing(Table(front), last, a, |a.bits|);
      }
    }
  }

  lemma {:induction false} BoundedBits(entries: seq<Entry>, a: Addr, n: nat)
    requires forall j :: 0 <= j < |entries| && entries[j].prefix.Contains(a) ==> entries[j].prefix.len <= n
    ensures LongestBits(Table(entries), a, |a.bits|) <= n
  {
    NothingInEmpty(a, |a.bits|);
    if entries != [] {
      var front, last := entries[..|entries| - 1], entries[|entries| - 1];
      assert forall j :: 0 <= j < |front| ==> front[j] == entries[j];
      BoundedBits(front, a, n);
      if last.prefix.Contains(a) {
        HitWins(Table(front), last, a, |a.bits|);
      } else {
        MissChangesNothing(Table(front), last, a, |a.bits|);
      }
    }
  }
}
