/** The broker ranking the query handler builds from the fetched offers:
    group by broker, count, order by count descending (stable), keep ten,
    number them from one. */
module Ranking {
  import opened Optional
  import opened Int32s
  import opened Models
  import opened Queries

  /** How many brokers the ranking keeps. */
  const TopSize: nat := 10

  function Min(a: int, b: int): int
  {
    if a <= b then a else b
  }

  // ---------------------------------------------------------------------
  // Reference notions over the offer sequence

  function MakelaarIds(offers: seq<Offer>): (ids: seq<int32>)
    ensures |ids| == |offers|
    ensures forall k :: 0 <= k < |offers| ==> ids[k] == offers[k].makelaarId
  {
    seq(|offers|, k requires 0 <= k < |offers| => offers[k].makelaarId)
  }

  function Elements(ks: seq<int32>): set<int32>
  {
    set k | k in ks
  }

  /** The brokers that list at least one of the offers. */
  function Brokers(offers: seq<Offer>): set<int32>
  {
    Elements(MakelaarIds(offers))
  }

  /** How many of the offers broker `id` lists. */
  function Listings(offers: seq<Offer>, id: int32): nat
  {
    multiset(MakelaarIds(offers))[id]
  }

  /** Index of the first offer of broker `id`, or `|offers|` when it lists none. */
  function FirstIndex(offers: seq<Offer>, id: int32): (i: nat)
    ensures i <= |offers|
    ensures i < |offers| ==> offers[i].makelaarId == id
    ensures forall k :: 0 <= k < i ==> offers[k].makelaarId != id
  {
    if |offers| == 0 then 0
    else if offers[0].makelaarId == id then 0
    else 1 + FirstIndex(offers[1..], id)
  }

  lemma FirstIndexBrokers(offers: seq<Offer>, id: int32)
    ensures FirstIndex(offers, id) < |offers| <==> id in Brokers(offers)
  {
    var i := FirstIndex(offers, id);
    if i < |offers| {
      assert MakelaarIds(offers)[i] == id;
    }
  }

  /** Broker `a` goes before broker `b`: more listings, or as many and seen first. */
  ghost predicate Outranks(offers: seq<Offer>, a: int32, b: int32)
  {
    || Listings(offers, a) > Listings(offers, b)
    || (Listings(offers, a) == Listings(offers, b) && FirstIndex(offers, a) < FirstIndex(offers, b))
  }

  function Keys(ms: seq<TopMakelaar>): (ks: seq<int32>)
    ensures |ks| == |ms|
    ensures forall i :: 0 <= i < |ms| ==> ks[i] == ms[i].id
  {
    seq(|ms|, i requires 0 <= i < |ms| => ms[i].id)
  }

  /** The entry describes a broker of the offers truthfully: the broker lists
      `m.listingCount` of them and the name is taken from its first offer. */
  ghost predicate Describes(offers: seq<Offer>, m: TopMakelaar)
  {
    && FirstIndex(offers, m.id) < |offers|
    && m.listingCount == Listings(offers, m.id)
    && m.name == offers[FirstIndex(offers, m.id)].makelaarNaam
  }

  ghost predicate AllDescribe(offers: seq<Offer>, groups: seq<TopMakelaar>)
  {
    forall i :: 0 <= i < |groups| ==> Describes(offers, groups[i]) && groups[i].rank == 0
  }

  ghost predicate InFirstSeenOrder(offers: seq<Offer>, groups: seq<TopMakelaar>)
  {
    forall i, j :: 0 <= i < j < |groups| ==>
      FirstIndex(offers, groups[i].id) < FirstIndex(offers, groups[j].id)
  }

  ghost predicate CoversBrokers(offers: seq<Offer>, groups: seq<TopMakelaar>)
  {
    forall k :: 0 <= k < |offers| ==> offers[k].makelaarId in Keys(groups)
  }

  /** `groups` is what grouping the offers by broker yields: one unranked
      entry per broker, in the order the brokers first appear. */
  ghost predicate GroupsOf(offers: seq<Offer>, groups: seq<TopMakelaar>)
  {
    AllDescribe(offers, groups) && InFirstSeenOrder(offers, groups) && CoversBrokers(offers, groups)
  }

  // ---------------------------------------------------------------------
  // GroupBy(o => o.MakelaarId).Select(g => new TopMakelaar { .. })

  /** Feeds one offer to the grouping: it joins its broker's group, or opens
      a new group, named after it, at the end. */
  function AddToGroups(groups: seq<TopMakelaar>, o: Offer): seq<TopMakelaar>
  {
    if |groups| == 0 then [TopMakelaar(o.makelaarId, o.makelaarNaam, 1, 0)]
    else if groups[0].id == o.makelaarId then
      [groups[0].(listingCount := groups[0].listingCount + 1)] + groups[1..]
    else [groups[0]] + AddToGroups(groups[1..], o)
  }

  function GroupByMakelaar(offers: seq<Offer>): seq<TopMakelaar>
  {
    if |offers| == 0 then []
    else AddToGroups(GroupByMakelaar(offers[..|offers| - 1]), offers[|offers| - 1])
  }

  lemma {:induction false} AddToGroupsJoins(groups: seq<TopMakelaar>, o: Offer, j: nat)
    requires j < |groups| && groups[j].id == o.makelaarId
    requires forall i :: 0 <= i < j ==> groups[i].id != o.makelaarId
    ensures AddToGroups(groups, o) == groups[j := groups[j].(listingCount := groups[j].listingCount + 1)]
  {
    if j > 0 {
      AddToGroupsJoins(groups[1..], o, j - 1);
    }
  }

  lemma {:induction false} AddToGroupsOpens(groups: seq<TopMakelaar>, o: Offer)
    requires o.makelaarId !in Keys(groups)
    ensures AddToGroups(groups, o) == groups + [TopMakelaar(o.makelaarId, o.makelaarNaam, 1, 0)]
  {
    if |groups| > 0 {
      assert groups[0].id == Keys(groups)[0];
      assert Keys(groups[1..]) == Keys(groups)[1..];
      AddToGroupsOpens(groups[1..], o);
    }
  }

  /** The last offer adds one listing to its own broker and none to the others. */
  lemma ListingsLast(offers: seq<Offer>, id: int32)
    requires |offers| > 0
    ensures var n := |offers| - 1;
      Listings(offers, id) == Listings(offers[..n], id) + (if offers[n].makelaarId == id then 1 else 0)
  {
    var n := |offers| - 1;
    assert MakelaarIds(offers) == MakelaarIds(offers[..n]) + [offers[n].makelaarId];
  }

  /** The last offer leaves every first index of the earlier offers in place. */
  lemma FirstIndexLast(offers: seq<Offer>, id: int32)
    requires |offers| > 0
    ensures var n := |offers| - 1;
      FirstIndex(offers[..n], id) < n ==> FirstIndex(offers, id) == FirstIndex(offers[..n], id)
    ensures var n := |offers| - 1;
      FirstIndex(offers[..n], id) == n ==>
        FirstIndex(offers, id) == if offers[n].makelaarId == id then n else n + 1
  {
    var n := |offers| - 1;
    var i := FirstIndex(offers[..n], id);
    assert forall k :: 0 <= k < n ==> offers[..n][k] == offers[k];
    if i < n {
      assert offers[i].makelaarId == id;
    }
  }

  /** A broker without a group lists none of the offers. */
  lemma UncoveredAbsent(offers: seq<Offer>, groups: seq<TopMakelaar>, id: int32)
    requires CoversBrokers(offers, groups)
    requires id !in Keys(groups)
    ensures FirstIndex(offers, id) == |offers|
    ensures Listings(offers, id) == 0
  {
    forall k | 0 <= k < |offers|
      ensures MakelaarIds(offers)[k] != id
    {
      assert offers[k].makelaarId in Keys(groups);
    }
    assert id !in MakelaarIds(offers);
    FirstIndexBrokers(offers, id);
  }

  /** Groups described in a first-seen order have pairwise different keys. */
  lemma OrderedKeysDistinct(offers: seq<Offer>, groups: seq<TopMakelaar>, j: nat)
    requires InFirstSeenOrder(offers, groups)
    requires j < |groups|
    ensures forall i :: 0 <= i < |groups| && i != j ==> groups[i].id != groups[j].id
  {
    forall i | 0 <= i < |groups| && i != j
      ensures groups[i].id != groups[j].id
    {
      if i < j {
        assert FirstIndex(offers, groups[i].id) < FirstIndex(offers, groups[j].id);
      } else {
        assert FirstIndex(offers, groups[j].id) < FirstIndex(offers, groups[i].id);
      }
    }
  }

  /** What the groups of a prefix say about their brokers stays true once one more offer follows. */
  lemma {:induction false} PrefixGroupsStay(offers: seq<Offer>, groups: seq<TopMakelaar>)
    requires |offers| > 0 && AllDescribe(offers[..|offers| - 1], groups)
    ensures forall i :: 0 <= i < |groups| ==>
      && FirstIndex(offers, groups[i].id) == FirstIndex(offers[..|offers| - 1], groups[i].id) < |offers| - 1
      && offers[FirstIndex(offers, groups[i].id)].makelaarNaam == groups[i].name
  {
    var n := |offers| - 1;
    var prefix := offers[..n];
    forall i | 0 <= i < |groups|
      ensures FirstIndex(offers, groups[i].id) == FirstIndex(prefix, groups[i].id) < n
      ensures offers[FirstIndex(offers, groups[i].id)].makelaarNaam == groups[i].name
    {
      assert Describes(prefix, groups[i]);
      FirstIndexLast(offers, groups[i].id);
      assert offers[FirstIndex(prefix, groups[i].id)] == prefix[FirstIndex(prefix, groups[i].id)];
    }
  }

  lemma {:induction false} JoinDescribes(offers: seq<Offer>, groups: seq<TopMakelaar>, j: nat)
    requires |offers| > 0 && AllDescribe(offers[..|offers| - 1], groups)
    requires j < |groups| && groups[j].id == offers[|offers| - 1].makelaarId
    requires forall i :: 0 <= i < |groups| && i != j ==> groups[i].id != groups[j].id
    ensures AllDescribe(offers, groups[j := groups[j].(listingCount := groups[j].listingCount + 1)])
  {
    var r := groups[j := groups[j].(listingCount := groups[j].listingCount + 1)];
    PrefixGroupsStay(offers, groups);
    forall i | 0 <= i < |r|
      ensures Describes(offers, r[i]) && r[i].rank == 0
    {
      assert Describes(offers[..|offers| - 1], groups[i]);
      ListingsLast(offers, r[i].id);
    }
  }

  lemma {:induction false} SameKeysInOrder(offers: seq<Offer>, groups: seq<TopMakelaar>, r: seq<TopMakelaar>)
    requires |offers| > 0
    requires AllDescribe(offers[..|offers| - 1], groups) && InFirstSeenOrder(offers[..|offers| - 1], groups)
    requires Keys(r) == Keys(groups)
    ensures InFirstSeenOrder(offers, r)
  {
    var prefix := offers[..|offers| - 1];
    PrefixGroupsStay(offers, groups);
    forall i, k | 0 <= i < k < |r|
      ensures FirstIndex(offers, r[i].id) < FirstIndex(offers, r[k].id)
    {
      assert r[i].id == Keys(groups)[i] && r[k].id == Keys(groups)[k];
      assert FirstIndex(prefix, groups[i].id) < FirstIndex(prefix, groups[k].id);
    }
  }

  /** An offer of a broker that already has a group adds one to that group's count. */
  lemma {:induction false} JoinKeepsGroupsOf(offers: seq<Offer>, groups: seq<TopMakelaar>, j: nat)
    requires |offers| > 0 && GroupsOf(offers[..|offers| - 1], groups)
    requires j < |groups| && groups[j].id == offers[|offers| - 1].makelaarId
    ensures GroupsOf(offers, AddToGroups(groups, offers[|offers| - 1]))
  {
    var n := |offers| - 1;
    var prefix, o := offers[..n], offers[n];
    OrderedKeysDistinct(prefix, groups, j);
    AddToGroupsJoins(groups, o, j);
    var r := AddToGroups(groups, o);
    JoinDescribes(offers, groups, j);
    assert Keys(r) == Keys(groups);
    SameKeysInOrder(offers, groups, r);
    SameKeysCover(offers, groups, r);
  }

  /** Groups that covered the earlier offers, with the same keys, cover the
      last offer too when its broker has a group. */
  lemma SameKeysCover(offers: seq<Offer>, groups: seq<TopMakelaar>, r: seq<TopMakelaar>)
    requires |offers| > 0 && CoversBrokers(offers[..|offers| - 1], groups)
    requires Keys(r) == Keys(groups) && offers[|offers| - 1].makelaarId in Keys(groups)
    ensures CoversBrokers(offers, r)
  {
    var n := |offers| - 1;
    forall k | 0 <= k < |offers|
      ensures offers[k].makelaarId in Keys(r)
    {
      if k < n {
        assert offers[k] == offers[..n][k];
      }
    }
  }

  lemma {:induction false} OpenDescribes(offers: seq<Offer>, groups: seq<TopMakelaar>)
    requires |offers| > 0 && AllDescribe(offers[..|offers| - 1], groups)
    requires FirstIndex(offers[..|offers| - 1], offers[|offers| - 1].makelaarId) == |offers| - 1
    requires Listings(offers[..|offers| - 1], offers[|offers| - 1].makelaarId) == 0
    ensures AllDescribe(offers, groups + [TopMakelaar(offers[|offers| - 1].makelaarId, offers[|offers| - 1].makelaarNaam, 1, 0)])
  {
    var n := |offers| - 1;
    var o := offers[n];
    var r := groups + [TopMakelaar(o.makelaarId, o.makelaarNaam, 1, 0)];
    PrefixGroupsStay(offers, groups);
    forall i | 0 <= i < |groups|
      ensures Describes(offers, r[i]) && r[i].rank == 0
    {
      assert Describes(offers[..n], groups[i]);
      ListingsLast(offers, r[i].id);
    }
    FirstIndexLast(offers, o.makelaarId);
    ListingsLast(offers, o.makelaarId);
    assert Describes(offers, r[|groups|]);
  }

  lemma {:induction false} OpenInOrder(offers: seq<Offer>, groups: seq<TopMakelaar>)
    requires |offers| > 0
    requires AllDescribe(offers[..|offers| - 1], groups) && InFirstSeenOrder(offers[..|offers| - 1], groups)
    requires FirstIndex(offers[..|offers| - 1], offers[|offers| - 1].makelaarId) == |offers| - 1
    ensures InFirstSeenOrder(offers, groups + [TopMakelaar(offers[|offers| - 1].makelaarId, offers[|offers| - 1].makelaarNaam, 1, 0)])
  {
    var n := |offers| - 1;
    var o := offers[n];
    var r := groups + [TopMakelaar(o.makelaarId, o.makelaarNaam, 1, 0)];
    PrefixGroupsStay(offers, groups);
    FirstIndexLast(offers, o.makelaarId);
    forall i, j | 0 <= i < j < |r|
      ensures FirstIndex(offers, r[i].id) < FirstIndex(offers, r[j].id)
    {
      if j < |groups| {
        assert FirstIndex(offers[..n], groups[i].id) < FirstIndex(offers[..n], groups[j].id);
      }
    }
  }

  /** An offer of a broker without a group opens one at the end. */
  lemma {:induction false} OpenKeepsGroupsOf(offers: seq<Offer>, groups: seq<TopMakelaar>)
    requires |offers| > 0 && GroupsOf(offers[..|offers| - 1], groups)
    requires offers[|offers| - 1].makelaarId !in Keys(groups)
    ensures GroupsOf(offers, AddToGroups(groups, offers[|offers| - 1]))
  {
    var n := |offers| - 1;
    var prefix, o := offers[..n], offers[n];
    var id := o.makelaarId;
    UncoveredAbsent(prefix, groups, id);
    AddToGroupsOpens(groups, o);
    var r := groups + [TopMakelaar(id, o.makelaarNaam, 1, 0)];
    OpenDescribes(offers, groups);
    OpenInOrder(offers, groups);
    assert CoversBrokers(offers, r) by {
      forall k | 0 <= k < |offers|
        ensures offers[k].makelaarId in Keys(r)
      {
        if k < n {
          assert offers[k] == prefix[k];
          assert prefix[k].makelaarId in Keys(groups);
          assert Keys(groups) <= Keys(r);
        } else {
          assert Keys(r)[|groups|] == id;
        }
      }
    }
  }

  /** Grouping yields one truthful entry per broker, in first-seen order. */
  lemma {:induction false} GroupByMakelaarGroups(offers: seq<Offer>)
    ensures GroupsOf(offers, GroupByMakelaar(offers))
  {
    if |offers| > 0 {
      var n := |offers| - 1;
      var groups := GroupByMakelaar(offers[..n]);
      assert GroupByMakelaar(offers) == AddToGroups(groups, offers[n]);
      GroupByMakelaarGroups(offers[..n]);
      if offers[n].makelaarId in Keys(groups) {
        var j :| 0 <= j < |groups| && Keys(groups)[j] == offers[n].makelaarId;
        JoinKeepsGroupsOf(offers, groups, j);
      } else {
        OpenKeepsGroupsOf(offers, groups);
      }
    }
  }

  // ---------------------------------------------------------------------
  // OrderByDescending(m => m.ListingCount)

  /** Places `m` after every entry with a larger count and before the rest. */
  function InsertByCount(m: TopMakelaar, sorted: seq<TopMakelaar>): (r: seq<TopMakelaar>)
    ensures multiset(r) == multiset(sorted) + multiset{m}
  {
    if |sorted| == 0 then [m]
    else if sorted[0].listingCount > m.listingCount then
      assert sorted == [sorted[0]] + sorted[1..];
      [sorted[0]] + InsertByCount(m, sorted[1..])
    else [m] + sorted
  }

  /** A stable sort on descending listing count: entries with equal counts keep their order. */
  function SortByCountDescending(ms: seq<TopMakelaar>): (r: seq<TopMakelaar>)
    ensures multiset(r) == multiset(ms)
  {
    if |ms| == 0 then []
    else
      assert ms == [ms[0]] + ms[1..];
      InsertByCount(ms[0], SortByCountDescending(ms[1..]))
  }

  ghost predicate CountsListings(offers: seq<Offer>, ms: seq<TopMakelaar>)
  {
    forall i :: 0 <= i < |ms| ==> ms[i].listingCount == Listings(offers, ms[i].id)
  }

  /** Every entry outranks every later one. */
  ghost predicate Ranked(offers: seq<Offer>, ms: seq<TopMakelaar>)
  {
    forall i, j :: 0 <= i < j < |ms| ==> Outranks(offers, ms[i].id, ms[j].id)
  }

  lemma {:induction false} InsertByCountRanked(offers: seq<Offer>, m: TopMakelaar, sorted: seq<TopMakelaar>)
    requires m.listingCount == Listings(offers, m.id) && CountsListings(offers, sorted)
    requires Ranked(offers, sorted)
    requires forall i :: 0 <= i < |sorted| && sorted[i].listingCount == m.listingCount ==>
      FirstIndex(offers, m.id) < FirstIndex(offers, sorted[i].id)
    ensures Ranked(offers, InsertByCount(m, sorted))
  {
    if |sorted| > 0 {
      if sorted[0].listingCount > m.listingCount {
        InsertByCountRanked(offers, m, sorted[1..]);
        HeadOutranksInserted(offers, m, sorted);
      } else {
        InsertedOutranksAll(offers, m, sorted);
      }
    }
  }

  /** A head with a larger count than `m` outranks everything `m` is inserted among. */
  lemma HeadOutranksInserted(offers: seq<Offer>, m: TopMakelaar, sorted: seq<TopMakelaar>)
    requires m.listingCount == Listings(offers, m.id) && CountsListings(offers, sorted)
    requires Ranked(offers, sorted)
    requires |sorted| > 0 && sorted[0].listingCount > m.listingCount
    requires Ranked(offers, InsertByCount(m, sorted[1..]))
    ensures Ranked(offers, InsertByCount(m, sorted))
  {
    var rest := InsertByCount(m, sorted[1..]);
    forall j | 0 <= j < |rest|
      ensures Outranks(offers, sorted[0].id, rest[j].id)
    {
      assert rest[j] in multiset(rest);
      if rest[j] != m {
        assert rest[j] in multiset(sorted[1..]);
        var k :| 0 <= k < |sorted[1..]| && sorted[1..][k] == rest[j];
        assert Outranks(offers, sorted[0].id, sorted[k + 1].id);
      }
    }
    assert InsertByCount(m, sorted) == [sorted[0]] + rest;
  }

  /** An entry placed in front outranks every entry behind it. */
  lemma InsertedOutranksAll(offers: seq<Offer>, m: TopMakelaar, sorted: seq<TopMakelaar>)
    requires m.listingCount == Listings(offers, m.id) && CountsListings(offers, sorted)
    requires Ranked(offers, sorted)
    requires forall i :: 0 <= i < |sorted| && sorted[i].listingCount == m.listingCount ==>
      FirstIndex(offers, m.id) < FirstIndex(offers, sorted[i].id)
    requires |sorted| > 0 && sorted[0].listingCount <= m.listingCount
    ensures Ranked(offers, InsertByCount(m, sorted))
  {
    forall j | 0 <= j < |sorted|
      ensures Outranks(offers, m.id, sorted[j].id)
    {
      if j > 0 {
        assert Outranks(offers, sorted[0].id, sorted[j].id);
      }
    }
    assert InsertByCount(m, sorted) == [m] + sorted;
  }

  /** Sorting entries that come in first-seen order ranks them: by count, and
      by first appearance among equal counts. */
  lemma {:induction false} SortByCountRanked(offers: seq<Offer>, ms: seq<TopMakelaar>)
    requires CountsListings(offers, ms) && InFirstSeenOrder(offers, ms)
    ensures Ranked(offers, SortByCountDescending(ms))
    ensures CountsListings(offers, SortByCountDescending(ms))
  {
    if |ms| > 0 {
      var tail := ms[1..];
      var sortedTail := SortByCountDescending(tail);
      SortByCountRanked(offers, tail);
      forall i | 0 <= i < |sortedTail|
        ensures FirstIndex(offers, ms[0].id) < FirstIndex(offers, sortedTail[i].id)
      {
        assert sortedTail[i] in multiset(tail);
        var k :| 0 <= k < |tail| && tail[k] == sortedTail[i];
        assert ms[k + 1] == tail[k];
      }
      InsertByCountRanked(offers, ms[0], sortedTail);
      var r := SortByCountDescending(ms);
      forall i | 0 <= i < |r|
        ensures r[i].listingCount == Listings(offers, r[i].id)
      {
        assert r[i] in multiset(ms);
      }
    }
  }

  // ---------------------------------------------------------------------
  // Take(10) and the rank counter

  /** Numbers the entries with consecutive ranks, starting at `rank`, the way
      the handler's captured counter does during one enumeration. */
  function NumberFrom(ms: seq<TopMakelaar>, rank: nat): (r: seq<TopMakelaar>)
    ensures |r| == |ms|
  {
    if |ms| == 0 then [] else [ms[0].(rank := rank)] + NumberFrom(ms[1..], rank + 1)
  }

  lemma {:induction false} NumberFromRanks(ms: seq<TopMakelaar>, rank: nat)
    ensures forall i :: 0 <= i < |ms| ==> NumberFrom(ms, rank)[i] == ms[i].(rank := rank + i)
  {
    if |ms| > 0 {
      NumberFromRanks(ms[1..], rank + 1);
    }
  }

  /** The ranking: grouped, ordered by count, cut to ten, numbered from one. */
  function TopMakelaars(offers: seq<Offer>): seq<TopMakelaar>
  {
    var sorted := SortByCountDescending(GroupByMakelaar(offers));
    NumberFrom(sorted[..Min(TopSize, |sorted|)], 1)
  }

  /** The ranking, unnumbered, is the first ten of the sorted groups. */
  lemma TopMakelaarsPrefix(offers: seq<Offer>)
    ensures var sorted := SortByCountDescending(GroupByMakelaar(offers));
      && |TopMakelaars(offers)| == Min(TopSize, |sorted|)
      && forall i :: 0 <= i < |TopMakelaars(offers)| ==>
           TopMakelaars(offers)[i] == sorted[i].(rank := i + 1)
  {
    var sorted := SortByCountDescending(GroupByMakelaar(offers));
    NumberFromRanks(sorted[..Min(TopSize, |sorted|)], 1);
  }

  lemma SortedGroups(offers: seq<Offer>)
    ensures var sorted := SortByCountDescending(GroupByMakelaar(offers));
      && Ranked(offers, sorted)
      && (forall i :: 0 <= i < |sorted| ==> Describes(offers, sorted[i]))
      && multiset(sorted) == multiset(GroupByMakelaar(offers))
  {
    var groups := GroupByMakelaar(offers);
    GroupByMakelaarGroups(offers);
    SortByCountRanked(offers, groups);
    var sorted := SortByCountDescending(groups);
    forall i | 0 <= i < |sorted|
      ensures Describes(offers, sorted[i])
    {
      assert sorted[i] in multiset(groups);
    }
  }

  /** Each entry is a broker of the offers with its true listing count, the
      name on its first offer, and rank one more than its position. */
  lemma TopMakelaarsDescribe(offers: seq<Offer>)
    ensures var r := TopMakelaars(offers);
      forall i :: 0 <= i < |r| ==>
        && r[i].id in Brokers(offers)
        && r[i].listingCount == Listings(offers, r[i].id)
        && r[i].name == offers[FirstIndex(offers, r[i].id)].makelaarNaam
        && r[i].rank == i + 1
  {
    TopMakelaarsPrefix(offers);
    SortedGroups(offers);
    var r := TopMakelaars(offers);
    forall i | 0 <= i < |r|
      ensures r[i].id in Brokers(offers)
    {
      FirstIndexBrokers(offers, r[i].id);
    }
  }

  /** Entries are ordered by listing count, highest first; among equal counts
      the broker whose first offer comes earlier goes first. */
  lemma TopMakelaarsOrder(offers: seq<Offer>)
    ensures var r := TopMakelaars(offers);
      forall i, j :: 0 <= i < j < |r| ==>
        && Outranks(offers, r[i].id, r[j].id)
        && r[i].listingCount >= r[j].listingCount
        && (r[i].listingCount == r[j].listingCount ==>
              FirstIndex(offers, r[i].id) < FirstIndex(offers, r[j].id))
  {
    TopMakelaarsPrefix(offers);
    SortedGroups(offers);
  }

  /** A sequence without repeats has as many distinct elements as positions. */
  lemma {:induction false} DistinctCardinality(ks: seq<int32>)
    requires forall i, j :: 0 <= i < j < |ks| ==> ks[i] != ks[j]
    ensures |Elements(ks)| == |ks|
  {
    if |ks| > 0 {
      var n := |ks| - 1;
      var front := ks[..n];
      DistinctCardinality(front);
      assert forall i :: 0 <= i < n ==> front[i] != ks[n];
      assert ks[n] !in Elements(front);
      assert Elements(ks) == Elements(front) + {ks[n]};
    } else {
      assert Elements(ks) == {};
    }
  }

  /** There is one group per broker. */
  lemma GroupCount(offers: seq<Offer>)
    ensures |GroupByMakelaar(offers)| == |Brokers(offers)|
  {
    var groups := GroupByMakelaar(offers);
    GroupByMakelaarGroups(offers);
    var keys := Keys(groups);
    forall i, j | 0 <= i < j < |keys|
      ensures keys[i] != keys[j]
    {
      assert FirstIndex(offers, groups[i].id) < FirstIndex(offers, groups[j].id);
    }
    DistinctCardinality(keys);
    forall id | id in keys
      ensures id in Brokers(offers)
    {
      var i :| 0 <= i < |keys| && keys[i] == id;
      assert Describes(offers, groups[i]);
      FirstIndexBrokers(offers, id);
    }
    forall id | id in Brokers(offers)
      ensures id in keys
    {
      var k :| 0 <= k < |offers| && MakelaarIds(offers)[k] == id;
      assert offers[k].makelaarId in keys;
    }
    assert Elements(keys) == Brokers(offers);
  }

  /** The ranking holds ten brokers, or every broker when there are fewer,
      and no broker twice. */
  lemma TopMakelaarsSize(offers: seq<Offer>)
    ensures var r := TopMakelaars(offers);
      && |r| == Min(TopSize, |Brokers(offers)|)
      && forall i, j :: 0 <= i < j < |r| ==> r[i].id != r[j].id
  {
    TopMakelaarsPrefix(offers);
    SortedGroups(offers);
    GroupCount(offers);
    var sorted := SortByCountDescending(GroupByMakelaar(offers));
    assert |sorted| == |GroupByMakelaar(offers)| by {
      assert |multiset(sorted)| == |multiset(GroupByMakelaar(offers))|;
    }
  }

  lemma SortedRanked(offers: seq<Offer>)
    ensures Ranked(offers, SortByCountDescending(GroupByMakelaar(offers)))
  {
    SortedGroups(offers);
  }

  /** Every broker has a place among the sorted groups. */
  lemma SortedHasBroker(offers: seq<Offer>, id: int32)
    requires id in Brokers(offers)
    ensures id in Keys(SortByCountDescending(GroupByMakelaar(offers)))
  {
    var groups := GroupByMakelaar(offers);
    var sorted := SortByCountDescending(groups);
    assert CoversBrokers(offers, groups) by {
      GroupByMakelaarGroups(offers);
    }
    var k :| 0 <= k < |offers| && MakelaarIds(offers)[k] == id;
    assert offers[k].makelaarId in Keys(groups);
    var g :| 0 <= g < |groups| && Keys(groups)[g] == id;
    assert groups[g] in multiset(sorted);
    var p :| 0 <= p < |sorted| && sorted[p] == groups[g];
    assert Keys(sorted)[p] == id;
  }

  /** A broker missing from the ranking: the ranking is full and outranks it. */
  lemma MissingBrokerOutranked(offers: seq<Offer>, id: int32)
    requires id in Brokers(offers) && id !in Keys(TopMakelaars(offers))
    ensures |TopMakelaars(offers)| == TopSize
    ensures forall i :: 0 <= i < |TopMakelaars(offers)| ==>
      Outranks(offers, TopMakelaars(offers)[i].id, id)
  {
    var r := TopMakelaars(offers);
    var sorted := SortByCountDescending(GroupByMakelaar(offers));
    TopMakelaarsPrefix(offers);
    SortedRanked(offers);
    SortedHasBroker(offers, id);
    var p :| 0 <= p < |sorted| && Keys(sorted)[p] == id;
    assert forall q :: 0 <= q < |r| ==> Keys(r)[q] == sorted[q].id;
    assert p >= |r|;
    forall i | 0 <= i < |r|
      ensures Outranks(offers, r[i].id, id)
    {
      assert Outranks(offers, sorted[i].id, sorted[p].id);
    }
  }

  /** No broker left out of the ranking beats one in it: when a broker is
      missing, the ranking is full and each entry outranks the missing broker. */
  lemma TopMakelaarsKeepsBest(offers: seq<Offer>)
    ensures var r := TopMakelaars(offers);
      forall id :: id in Brokers(offers) && id !in Keys(r) ==>
        && |r| == TopSize
        && forall i :: 0 <= i < |r| ==> Outranks(offers, r[i].id, id)
  {
    forall id | id in Brokers(offers) && id !in Keys(TopMakelaars(offers))
      ensures |TopMakelaars(offers)| == TopSize
      ensures forall i :: 0 <= i < |TopMakelaars(offers)| ==>
        Outranks(offers, TopMakelaars(offers)[i].id, id)
    {
      MissingBrokerOutranked(offers, id);
    }
  }

  lemma TopMakelaarsOfNoOffers()
    ensures TopMakelaars([]) == []
  {
  }
}
