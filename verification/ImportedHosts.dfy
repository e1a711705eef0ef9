/** Which imported hosts an edit of an inbound's external proxies changed. */
module ImportedHosts {

  /** A Go slice: nil and empty differ. */
  datatype List = Nil | List(items: seq<string>)

  /** `rest` stands for the fields that are compared as they are. */
  datatype Host = Host(
    id: int, groupId: string, sortOrder: int, createdAt: int, updatedAt: int,
    tags: List, alpn: List, pinnedPeerCertSha256: List, excludeFromSubTypes: List, nodeGuids: List,
    rest: string)

  function NilIfEmpty(l: List): List { if l == List([]) then Nil else l }

  /** importedHostFields: row identity and placement do not count, empty lists are nil. */
  function Fields(h: Host): Host {
    Host(0, "", 0, 0, 0, NilIfEmpty(h.tags), NilIfEmpty(h.alpn), NilIfEmpty(h.pinnedPeerCertSha256),
         NilIfEmpty(h.excludeFromSubTypes), NilIfEmpty(h.nodeGuids), h.rest)
  }

  predicate SameImportedHost(a: Host, b: Host) { Fields(a) == Fields(b) }

  function Items(l: List): seq<string> { if l == Nil then [] else l.items }

  /** Two hosts are the same import just when their lists hold the same items and every other
      field but row identity and placement agrees. */
  lemma SameIff(a: Host, b: Host)
    ensures SameImportedHost(a, b) <==>
      && Items(a.tags) == Items(b.tags) && Items(a.alpn) == Items(b.alpn) && a.rest == b.rest
      && Items(a.pinnedPeerCertSha256) == Items(b.pinnedPeerCertSha256)
      && Items(a.excludeFromSubTypes) == Items(b.excludeFromSubTypes) && Items(a.nodeGuids) == Items(b.nodeGuids)
  {
    SameList(a.tags, b.tags);
    SameList(a.alpn, b.alpn);
    SameList(a.pinnedPeerCertSha256, b.pinnedPeerCertSha256);
    SameList(a.excludeFromSubTypes, b.excludeFromSubTypes);
    SameList(a.nodeGuids, b.nodeGuids);
  }

  lemma SameList(a: List, b: List)
    ensures NilIfEmpty(a) == NilIfEmpty(b) <==> Items(a) == Items(b)
  {
    assert NilIfEmpty(a) == if Items(a) == [] then Nil else List(Items(a));
    assert NilIfEmpty(b) == if Items(b) == [] then Nil else List(Items(b));
  }

  function AllFields(hs: seq<Host>): seq<Host> { seq(|hs|, i requires 0 <= i < |hs| => Fields(hs[i])) }

  // ---------------------------------------------------------------------------
  // Matching two lists of kinds
  // ---------------------------------------------------------------------------

  /** The kinds at the places whose mark is `which`. */
  function Marked<K>(ks: seq<K>, kept: seq<bool>, which: bool): multiset<K>
    requires |ks| == |kept|
  {
    if ks == [] then multiset{}
    else
      var n := |ks| - 1;
      var front := Marked(ks[..n], kept[..n], which);
      if kept[n] == which then front + multiset{ks[n]} else front
  }

  lemma {:induction false} MarkedBoth<K>(ks: seq<K>, kept: seq<bool>)
    requires |ks| == |kept|
    ensures Marked(ks, kept, true) + Marked(ks, kept, false) == multiset(ks)
  {
    if ks != [] {
      var n := |ks| - 1;
      MarkedBoth(ks[..n], kept[..n]);
      assert ks == ks[..n] + [ks[n]];
    }
  }

  lemma {:induction false} Keep<K>(ks: seq<K>, kept: seq<bool>, m: nat)
    requires |ks| == |kept| && m < |ks| && !kept[m]
    ensures Marked(ks, kept[m := true], true) == Marked(ks, kept, true) + multiset{ks[m]}
  {
    var n := |ks| - 1;
    if m == n {
      assert kept[m := true][..n] == kept[..n];
    } else {
      assert kept[m := true][..n] == kept[..n][m := true];
      Keep(ks[..n], kept[..n], m);
    }
  }

  lemma {:induction false} NoneMarked<K>(ks: seq<K>, kept: seq<bool>)
    requires |ks| == |kept| && forall i :: 0 <= i < |kept| ==> !kept[i]
    ensures Marked(ks, kept, true) == multiset{}
  {
    if ks != [] {
      NoneMarked(ks[..|ks| - 1], kept[..|ks| - 1]);
    }
  }

  lemma {:induction false} AllOfKindMarked<K>(ks: seq<K>, kept: seq<bool>, kind: K)
    requires |ks| == |kept| && forall i :: 0 <= i < |ks| && ks[i] == kind ==> kept[i]
    ensures Marked(ks, kept, false)[kind] == 0
  {
    if ks != [] {
      AllOfKindMarked(ks[..|ks| - 1], kept[..|ks| - 1], kind);
    }
  }

  /** Part of the new list matched: every kept old place has a partner, and a kind with an
      unmatched new entry has no old place left. */
  ghost predicate Matched<K(!new)>(olds: seq<K>, news: seq<K>, kept: seq<bool>, adds: seq<K>) {
    && |kept| == |olds| && Marked(olds, kept, true) + multiset(adds) == multiset(news)
    && forall i :: 0 <= i < |olds| && olds[i] in adds ==> kept[i]
  }

  lemma MatchedKept<K(!new)>(olds: seq<K>, news: seq<K>, kept: seq<bool>, adds: seq<K>, m: nat)
    requires Matched(olds, news, kept, adds) && m < |olds| && !kept[m]
    ensures Matched(olds, news + [olds[m]], kept[m := true], adds)
  {
    Keep(olds, kept, m);
  }

  lemma MatchedAdded<K(!new)>(olds: seq<K>, news: seq<K>, kept: seq<bool>, adds: seq<K>, kind: K)
    requires Matched(olds, news, kept, adds) && forall i :: 0 <= i < |olds| && olds[i] == kind ==> kept[i]
    ensures Matched(olds, news + [kind], kept, adds + [kind])
  {
  }

  /** A full match leaves the two multiset differences. */
  lemma MatchedDifference<K(!new)>(olds: seq<K>, news: seq<K>, kept: seq<bool>, adds: seq<K>)
    requires Matched(olds, news, kept, adds)
    ensures Marked(olds, kept, false) == multiset(olds) - multiset(news)
    ensures multiset(adds) == multiset(news) - multiset(olds)
  {
    var on, off, more := Marked(olds, kept, true), Marked(olds, kept, false), multiset(adds);
    MarkedBoth(olds, kept);
    forall c ensures off[c] == 0 || more[c] == 0 {
      if c in adds {
        AllOfKindMarked(olds, kept, c);
      }
    }
    Cancel(on, off, more);
  }

  lemma Cancel<K(!new)>(on: multiset<K>, off: multiset<K>, more: multiset<K>)
    requires forall c :: off[c] == 0 || more[c] == 0
    ensures off == (on + off) - (on + more) && more == (on + more) - (on + off)
  {
  }

  // ---------------------------------------------------------------------------
  // changedImports
  // ---------------------------------------------------------------------------

  predicate Rising(at: seq<nat>, bound: nat) {
    (forall i :: 0 <= i < |at| ==> at[i] < bound) && forall i, j :: 0 <= i < j < |at| ==> at[i] < at[j]
  }

  function Pick<T>(s: seq<T>, at: seq<nat>): seq<T>
    requires forall i :: 0 <= i < |at| ==> at[i] < |s|
  {
    seq(|at|, i requires 0 <= i < |at| => s[at[i]])
  }

  /** The first unmatched old place of the same kind, or none. */
  method FirstMatch(oldImports: seq<Host>, kept: seq<bool>, next: Host) returns (m: nat)
    requires |kept| == |oldImports|
    ensures m <= |oldImports| && (m < |oldImports| ==> !kept[m] && AllFields(oldImports)[m] == Fields(next))
    ensures m == |oldImports| ==>
      forall i :: 0 <= i < |oldImports| && AllFields(oldImports)[i] == Fields(next) ==> kept[i]
  {
    m := 0;
    while m < |oldImports|
      invariant m <= |oldImports|
      invariant forall j :: 0 <= j < m && Fields(oldImports[j]) == Fields(next) ==> kept[j]
    {
      if !kept[m] && SameImportedHost(oldImports[m], next) {
        return;
      }
      m := m + 1;
    }
  }

  /** For all the greedy first match: for every kind, as many old positions are gone as the old
      list has more than the new, and as many entries are added as the new list has more than
      the old, both in list order. */
  method ChangedImports(oldImports: seq<Host>, newImports: seq<Host>)
    returns (gone: seq<nat>, added: seq<Host>, ghost at: seq<nat>)
    ensures Rising(gone, |oldImports|)
    ensures multiset(Pick(AllFields(oldImports), gone)) ==
      multiset(AllFields(oldImports)) - multiset(AllFields(newImports))
    ensures Rising(at, |newImports|) && added == Pick(newImports, at)
    ensures multiset(AllFields(added)) == multiset(AllFields(newImports)) - multiset(AllFields(oldImports))
  {
    ghost var olds, news := AllFields(oldImports), AllFields(newImports);
    var kept := seq(|oldImports|, _ => false);
    NoneMarked(olds, kept);
    added, at := [], [];
    ghost var adds: seq<Host> := [];
    for k := 0 to |newImports|
      invariant Picked(newImports, at, added, k)
      invariant Matched(olds, news[..k], kept, adds) && adds == AllFields(added)
    {
      var matched;
      matched, kept := MatchNext(oldImports, kept, newImports[k], news[..k], adds);
      assert news[..k + 1] == news[..k] + [Fields(newImports[k])];
      if !matched {
        PickOneMore(newImports, at, added, k);
        FieldsOneMore(added, newImports[k]);
        added, at, adds := added + [newImports[k]], at + [k], adds + [Fields(newImports[k])];
      }
    }
    assert news[..|newImports|] == news;
    gone := GoneOf(oldImports, kept, news, adds);
  }

  /** Some of the first k places, in order, and what is there. */
  ghost predicate Picked<T(!new)>(s: seq<T>, at: seq<nat>, picked: seq<T>, k: nat) {
    k <= |s| && Rising(at, k) && picked == Pick(s, at)
  }

  lemma PickOneMore<T(!new)>(s: seq<T>, at: seq<nat>, picked: seq<T>, k: nat)
    requires k < |s| && Picked(s, at, picked, k)
    ensures Picked(s, at + [k], picked + [s[k]], k + 1)
  {
    assert Pick(s, at + [k]) == Pick(s, at) + [s[k]];
  }

  lemma FieldsOneMore(hs: seq<Host>, h: Host)
    ensures AllFields(hs + [h]) == AllFields(hs) + [Fields(h)]
  {
  }

  /** Marks the old place an entry of the new list matches, if there is one. */
  method MatchNext(oldImports: seq<Host>, kept: seq<bool>, next: Host, ghost news: seq<Host>, ghost adds: seq<Host>)
    returns (matched: bool, kept': seq<bool>)
    requires Matched(AllFields(oldImports), news, kept, adds)
    ensures |kept'| == |oldImports|
    ensures Matched(AllFields(oldImports), news + [Fields(next)], kept',
                    if matched then adds else adds + [Fields(next)])
  {
    var m := FirstMatch(oldImports, kept, next);
    if m == |oldImports| {
      MatchedAdded(AllFields(oldImports), news, kept, adds, Fields(next));
      return false, kept;
    }
    MatchedKept(AllFields(oldImports), news, kept, adds, m);
    matched, kept' := true, kept[m := true];
  }

  method GoneOf(oldImports: seq<Host>, kept: seq<bool>, ghost news: seq<Host>, ghost adds: seq<Host>)
    returns (gone: seq<nat>)
    requires Matched(AllFields(oldImports), news, kept, adds)
    ensures Rising(gone, |oldImports|)
    ensures multiset(Pick(AllFields(oldImports), gone)) == multiset(AllFields(oldImports)) - multiset(news)
    ensures multiset(adds) == multiset(news) - multiset(AllFields(oldImports))
  {
    MatchedDifference(AllFields(oldImports), news, kept, adds);
    gone := Unmarked(kept);
    UnmarkedKinds(AllFields(oldImports), kept, gone);
  }

  predicate Lists(kept: seq<bool>, gone: seq<nat>) {
    Rising(gone, |kept|) && forall i :: 0 <= i < |kept| ==> (i in gone <==> !kept[i])
  }

  method Unmarked(kept: seq<bool>) returns (gone: seq<nat>)
    ensures Lists(kept, gone)
  {
    gone := [];
    for i := 0 to |kept|
      invariant Rising(gone, i) && forall j :: 0 <= j < i ==> (j in gone <==> !kept[j])
    {
      if !kept[i] {
        gone := gone + [i];
      }
    }
  }

  lemma {:induction false} RisingShort(at: seq<nat>, bound: nat)
    requires Rising(at, bound)
    ensures |at| <= bound
  {
    if at != [] {
      RisingShort(at[..|at| - 1], at[|at| - 1]);
    }
  }

  lemma {:induction false} UnmarkedKinds<K>(ks: seq<K>, kept: seq<bool>, gone: seq<nat>)
    requires |ks| == |kept| && Lists(kept, gone)
    ensures multiset(Pick(ks, gone)) == Marked(ks, kept, false)
  {
    RisingShort(gone, |kept|);
    if ks == [] {
      assert Pick(ks, gone) == [];
    } else {
      var n := |ks| - 1;
      if kept[n] {
        FrontListed(kept, gone);
        UnmarkedKinds(ks[..n], kept[..n], gone);
        PickFront(ks, gone);
      } else {
        LastListed(kept, gone);
        var front := gone[..|gone| - 1];
        UnmarkedKinds(ks[..n], kept[..n], front);
        PickLast(ks, gone);
      }
    }
  }

  lemma FrontListed(kept: seq<bool>, gone: seq<nat>)
    requires kept != [] && kept[|kept| - 1] && Lists(kept, gone)
    ensures Lists(kept[..|kept| - 1], gone)
  {
    assert |kept| - 1 !in gone;
    forall i | 0 <= i < |gone| ensures gone[i] < |kept| - 1 {
      assert gone[i] in gone;
    }
  }

  lemma PickFront<K>(ks: seq<K>, gone: seq<nat>)
    requires ks != [] && forall i :: 0 <= i < |gone| ==> gone[i] < |ks| - 1
    ensures Pick(ks, gone) == Pick(ks[..|ks| - 1], gone)
  {
  }

  lemma PickLast<K>(ks: seq<K>, gone: seq<nat>)
    requires ks != [] && gone != [] && gone[|gone| - 1] == |ks| - 1 && Rising(gone, |ks|)
    ensures multiset(Pick(ks, gone)) == multiset(Pick(ks[..|ks| - 1], gone[..|gone| - 1])) + multiset{ks[|ks| - 1]}
  {
    assert Pick(ks, gone) == Pick(ks[..|ks| - 1], gone[..|gone| - 1]) + [ks[|ks| - 1]];
  }

  lemma LastListed(kept: seq<bool>, gone: seq<nat>)
    requires kept != [] && !kept[|kept| - 1] && Lists(kept, gone)
    ensures gone != [] && gone[|gone| - 1] == |kept| - 1 && Lists(kept[..|kept| - 1], gone[..|gone| - 1])
  {
    var n := |kept| - 1;
    assert n in gone;
    var i :| 0 <= i < |gone| && gone[i] == n;
    assert gone[|gone| - 1] >= gone[i];
    var front := gone[..|gone| - 1];
    assert forall j :: j in front ==> j != n;
    assert gone == front + [n];
  }
}
