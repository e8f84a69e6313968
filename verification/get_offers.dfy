/** The feed operation "get offers": its options object, offer types and result. */
module GetOffers {
  import opened Optional
  import opened Int32s
  import opened Models

  /** The offer types the feed can be asked for. */
  datatype OfferType = Koop

  /** The enumeration member's name, as `ToString` and string interpolation write it. */
  function OfferTypeName(t: OfferType): (name: string)
    ensures |name| > 0
  {
    match t
    case Koop => "Koop"
  }

  const DefaultPage: int32 := 1
  const DefaultPageSize: int32 := 25

  /** The values a `GetOffersOptions` object carries at one moment. */
  datatype FeedQuery = FeedQuery(
    page: int32,
    pageSize: int32,
    searchCommand: Option<string>,
    offerType: Option<OfferType>)

  /** `Page++` on a C# `int`: one more, except that the largest value wraps to the smallest. */
  function NextPage(page: int32): (r: int32)
    ensures page < MaxValue ==> r == page + 1
    ensures page == MaxValue ==> r == MinValue
  {
    Wrap(page + 1)
  }

  /** The mutable options object a feed request is made from. */
  class GetOffersOptions {
    var page: int32
    var pageSize: int32
    var searchCommand: Option<string>
    var offerType: Option<OfferType>

    /** A fresh object asks for the first page of 25 offers, with no filter and no type. */
    constructor ()
      ensures page == DefaultPage && pageSize == DefaultPageSize
      ensures searchCommand.None? && offerType.None?
    {
      page := DefaultPage;
      pageSize := DefaultPageSize;
      searchCommand := None;
      offerType := None;
    }

    function Snapshot(): FeedQuery
      reads this
    {
      FeedQuery(page, pageSize, searchCommand, offerType)
    }

    /** A new object with the same four values. */
    method Copy() returns (c: GetOffersOptions)
      ensures fresh(c)
      ensures c.Snapshot() == Snapshot()
    {
      c := new GetOffersOptions();
      c.page := page;
      c.pageSize := pageSize;
      c.searchCommand := searchCommand;
      c.offerType := offerType;
    }

    /** Moves this object on by one page and returns the object itself. */
    method IncreasePage() returns (r: GetOffersOptions)
      modifies this
      ensures r == this
      ensures page == NextPage(old(page))
      ensures pageSize == old(pageSize)
      ensures searchCommand == old(searchCommand) && offerType == old(offerType)
    {
      page := NextPage(page);
      r := this;
    }
  }

  /** What one feed request returns; the C# references that may be null are options. */
  datatype GetOffersResult = GetOffersResult(
    statusCode: StatusCode,
    offers: Option<seq<Offer>>,
    paging: Option<PagingInfo>,
    totalObjects: int32)
}
