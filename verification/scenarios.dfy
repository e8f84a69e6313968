/** The situations the handler's unit tests describe, proved about the model. */
module Scenarios {
  import opened Optional
  import opened Int32s
  import opened Models
  import opened GetOffers
  import opened Queries
  import opened Ranking
  import opened FundaApiClient
  import opened QueryHandler

  // ---------------------------------------------------------------------
  // Offer lists made of one batch per broker

  /** A broker of a test and how many offers it lists. */
  datatype Seller = Seller(id: int32, name: string, listings: nat)

  /** The offers of one broker. */
  function Batch(s: Seller): (offers: seq<Offer>)
    ensures |offers| == s.listings
    ensures forall k :: 0 <= k < |offers| ==> offers[k].makelaarId == s.id
  {
    seq(s.listings, k requires 0 <= k < s.listings => Offer(0, s.id, Some(s.name), false, None))
  }

  /** The offers of all sellers, one batch after the other. */
  function Batches(sellers: seq<Seller>): seq<Offer>
  {
    if |sellers| == 0 then []
    else Batches(sellers[..|sellers| - 1]) + Batch(sellers[|sellers| - 1])
  }

  function SellerIds(sellers: seq<Seller>): (ids: seq<int32>)
    ensures |ids| == |sellers|
    ensures forall k :: 0 <= k < |sellers| ==> ids[k] == sellers[k].id
  {
    seq(|sellers|, k requires 0 <= k < |sellers| => sellers[k].id)
  }

  /** The listings the sellers with the given id bring in together. */
  function ListingsOf(sellers: seq<Seller>, id: int32): nat
  {
    if |sellers| == 0 then 0
    else
      var last := sellers[|sellers| - 1];
      ListingsOf(sellers[..|sellers| - 1], id) + (if last.id == id then last.listings else 0)
  }

  /** With distinct ids, a broker's listings are those of its one seller. */
  lemma {:induction false} DistinctListings(sellers: seq<Seller>, k: nat)
    requires k < |sellers|
    requires forall i, j :: 0 <= i < j < |sellers| ==> sellers[i].id != sellers[j].id
    ensures ListingsOf(sellers, sellers[k].id) == sellers[k].listings
  {
    var n := |sellers| - 1;
    var front := sellers[..n];
    AbsentListings(front, sellers[k].id);
    if k < n {
      DistinctListings(front, k);
    }
  }

  lemma {:induction false} AbsentListings(sellers: seq<Seller>, id: int32)
    ensures (forall i :: 0 <= i < |sellers| ==> sellers[i].id != id) ==> ListingsOf(sellers, id) == 0
  {
    if |sellers| > 0 {
      AbsentListings(sellers[..|sellers| - 1], id);
    }
  }

  /** A multiset of `n` copies of one value holds `n` of it and nothing else. */
  lemma {:induction false} RepeatedCount(x: int32, n: nat, y: int32)
    ensures multiset(seq(n, _ => x))[y] == if y == x then n else 0
  {
    if n > 0 {
      assert seq(n, _ => x) == seq(n - 1, _ => x) + [x];
      RepeatedCount(x, n - 1, y);
    }
  }

  /** A batch counts its listings for its broker and none for any other. */
  lemma BatchListings(s: Seller, other: int32)
    ensures Listings(Batch(s), other) == if other == s.id then s.listings else 0
  {
    assert MakelaarIds(Batch(s)) == seq(s.listings, _ => s.id);
    RepeatedCount(s.id, s.listings, other);
  }

  lemma BrokersAppend(xs: seq<Offer>, ys: seq<Offer>)
    ensures Brokers(xs + ys) == Brokers(xs) + Brokers(ys)
  {
    assert MakelaarIds(xs + ys) == MakelaarIds(xs) + MakelaarIds(ys);
  }

  /** Each broker's count is the sum of its sellers' listings. */
  lemma {:induction false} BatchesListings(sellers: seq<Seller>, id: int32)
    ensures Listings(Batches(sellers), id) == ListingsOf(sellers, id)
  {
    if |sellers| > 0 {
      var front := sellers[..|sellers| - 1];
      var last := sellers[|sellers| - 1];
      BatchesListings(front, id);
      ListingsAppend(Batches(front), Batch(last), id);
      BatchListings(last, id);
    }
  }

  /** When every seller lists something, the brokers are the sellers' ids. */
  lemma {:induction false} BatchesBrokers(sellers: seq<Seller>)
    requires forall k :: 0 <= k < |sellers| ==> sellers[k].listings > 0
    ensures Brokers(Batches(sellers)) == Elements(SellerIds(sellers))
  {
    if |sellers| == 0 {
      assert Elements(SellerIds(sellers)) == {};
    } else {
      var front := sellers[..|sellers| - 1];
      var last := sellers[|sellers| - 1];
      BatchesBrokers(front);
      BrokersAppend(Batches(front), Batch(last));
      assert MakelaarIds(Batch(last))[0] == last.id;
      assert Brokers(Batch(last)) == {last.id};
      assert SellerIds(sellers) == SellerIds(front) + [last.id];
    }
  }

  // ---------------------------------------------------------------------
  // Ranking four brokers

  /** The listing counts of the ranking test. */
  function TestCount(id: int32): nat
  {
    if id == 1 then 2 else if id == 2 then 20 else if id == 3 then 13 else if id == 4 then 40 else 0
  }

  /** Four distinct brokers in non-increasing order of their counts 2, 20, 13
      and 40 can only stand as 4, 2, 3, 1. */
  lemma OrderOfFour(r: seq<TopMakelaar>)
    requires |r| == 4
    requires forall i :: 0 <= i < 4 ==> r[i].id in {1, 2, 3, 4} && r[i].listingCount == TestCount(r[i].id)
    requires forall i, j :: 0 <= i < j < 4 ==> r[i].listingCount >= r[j].listingCount && r[i].id != r[j].id
    requires 4 in Keys(r) && 2 in Keys(r) && 3 in Keys(r)
    ensures r[0].id == 4 && r[1].id == 2 && r[2].id == 3 && r[3].id == 1
  {
    var k4 :| 0 <= k4 < 4 && Keys(r)[k4] == 4;
    var k2 :| 0 <= k2 < 4 && Keys(r)[k2] == 2;
    var k3 :| 0 <= k3 < 4 && Keys(r)[k3] == 3;
    assert r[0].listingCount >= r[k4].listingCount;
    assert r[0].id == 4;
    assert r[1].listingCount >= r[k2].listingCount;
    assert r[1].id == 2;
    assert r[2].listingCount >= r[k3].listingCount;
    assert r[2].id == 3;
  }

  /** Four brokers fit in the ranking: all of them appear, each once. */
  lemma FourBrokersAllRanked(offers: seq<Offer>)
    requires Brokers(offers) == {1, 2, 3, 4}
    ensures var r := TopMakelaars(offers);
      && |r| == 4
      && (forall i, j :: 0 <= i < j < 4 ==> r[i].id != r[j].id)
      && 4 in Keys(r) && 2 in Keys(r) && 3 in Keys(r)
  {
    var r := TopMakelaars(offers);
    assert |r| == 4 by {
      assert |Brokers(offers)| == 4;
      TopMakelaarsSize(offers);
    }
    assert 4 in Keys(r) && 2 in Keys(r) && 3 in Keys(r) by {
      TopMakelaarsKeepsBest(offers);
    }
    TopMakelaarsSize(offers);
  }

  /** Each of the four entries carries its broker's count, in non-increasing order. */
  lemma FourBrokersCounts(offers: seq<Offer>)
    requires Brokers(offers) == {1, 2, 3, 4}
    requires forall id :: id in Brokers(offers) ==> Listings(offers, id) == TestCount(id)
    ensures var r := TopMakelaars(offers);
      && (forall i :: 0 <= i < |r| ==> r[i].id in {1, 2, 3, 4} && r[i].listingCount == TestCount(r[i].id))
      && (forall i, j :: 0 <= i < j < |r| ==> r[i].listingCount >= r[j].listingCount)
  {
    TopMakelaarsDescribe(offers);
    TopMakelaarsOrder(offers);
  }

  /** Four brokers with distinct counts come out ordered by count, and each
      carries its rank. */
  lemma RanksFourByCount(offers: seq<Offer>)
    requires Brokers(offers) == {1, 2, 3, 4}
    requires forall id :: id in Brokers(offers) ==> Listings(offers, id) == TestCount(id)
    ensures var r := TopMakelaars(offers);
      && |r| == 4
      && r[0].id == 4 && r[1].id == 2 && r[2].id == 3 && r[3].id == 1
      && r[0].rank == 1 && r[3].rank == 4
  {
    FourBrokersAllRanked(offers);
    FourBrokersCounts(offers);
    OrderOfFour(TopMakelaars(offers));
    TopMakelaarsDescribe(offers);
  }

  /** The sellers of the ranking test: 2, 20, 13 and 40 listings. */
  function FourSellers(): seq<Seller>
  {
    [Seller(1, "Test 1", 2), Seller(2, "Test 2", 20), Seller(3, "Test 3", 13), Seller(4, "Test 4", 40)]
  }

  lemma FourSellersBrokers()
    ensures Brokers(Batches(FourSellers())) == {1, 2, 3, 4}
  {
    var sellers := FourSellers();
    BatchesBrokers(sellers);
    assert SellerIds(sellers) == [1, 2, 3, 4];
    assert Elements([1, 2, 3, 4]) == {1, 2, 3, 4};
  }

  lemma FourSellersListings(id: int32)
    requires id in {1, 2, 3, 4}
    ensures Listings(Batches(FourSellers()), id) == TestCount(id)
  {
    var sellers := FourSellers();
    var k := id as int - 1;
    assert sellers[k].id == id;
    BatchesListings(sellers, id);
    DistinctListings(sellers, k);
  }

  /** The brokers come out as 4, 2, 3, 1: most listings first. */
  lemma RanksFourBrokers()
    ensures var r := TopMakelaars(Batches(FourSellers()));
      && |r| == 4
      && r[0].id == 4 && r[1].id == 2 && r[2].id == 3 && r[3].id == 1
  {
    var offers := Batches(FourSellers());
    FourSellersBrokers();
    forall id | id in Brokers(offers)
      ensures Listings(offers, id) == TestCount(id)
    {
      FourSellersListings(id);
    }
    RanksFourByCount(offers);
  }

  // ---------------------------------------------------------------------
  // Twelve brokers

  /** The sellers of the size test: twelve brokers. */
  function TwelveSellers(): seq<Seller>
  {
    [Seller(1, "Test 1", 2), Seller(2, "Test 2", 20), Seller(3, "Test 3", 13),
     Seller(4, "Test 4", 14), Seller(5, "Test 5", 15), Seller(6, "Test 6", 16),
     Seller(7, "Test 7", 17), Seller(8, "Test 8", 18), Seller(9, "Test 9", 19),
     Seller(10, "Test 10", 10), Seller(11, "Test 11", 11), Seller(12, "Test 12", 12)]
  }

  /** Of twelve brokers only ten are ranked. */
  lemma LimitsTwelveBrokersToTen()
    ensures |TopMakelaars(Batches(TwelveSellers()))| == 10
  {
    var sellers := TwelveSellers();
    var ids := SellerIds(sellers);
    BatchesBrokers(sellers);
    assert ids == [1, 2, 3, 4, 5, 6, 7, 8, 9, 10, 11, 12];
    assert forall i, j :: 0 <= i < j < |ids| ==> ids[i] != ids[j];
    DistinctCardinality(ids);
    TopMakelaarsSize(Batches(sellers));
  }

  // ---------------------------------------------------------------------
  // Request building

  /** Amsterdam with a garden and Leiden without one. */
  lemma BuildsSearchCommands()
    ensures SearchCommand(TopMakalaarsQuery(Some("Amsterdam"), true)) == "/Amsterdam/tuin/"
    ensures SearchCommand(TopMakalaarsQuery(Some("Leiden"), false)) == "/Leiden/"
    ensures SearchCommand(TopMakalaarsQuery(Some(""), true)) == "/tuin/"
    ensures SearchCommand(TopMakalaarsQuery(None, false)) == "/"
  {
  }

  /** The buy type is sent as "koop". */
  lemma BuyTypeValue()
    ensures TypeValue(Koop) == "koop"
  {
  }

  /** Copying the first request's options and moving the copy on by a page,
      twice, asks for page 2 both times while the options stay on page 1. */
  method CopyIncreaseTwice() returns (original: int32, first: int32, second: int32)
    ensures original == 1 && first == 2 && second == 2
  {
    var options := new GetOffersOptions();
    var a := options.Copy();
    a := a.IncreasePage();
    var b := options.Copy();
    b := b.IncreasePage();
    original, first, second := options.page, a.page, b.page;
  }
}
