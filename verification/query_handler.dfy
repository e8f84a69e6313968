/** The handler of the "top makelaars" query: it turns the query into feed
    options, fetches the first page and the later ones, merges their offers and
    ranks the brokers. */
module QueryHandler {
  import opened Optional
  import opened Int32s
  import opened Text
  import opened Models
  import opened GetOffers
  import opened Queries
  import opened Ranking

  // ---------------------------------------------------------------------
  // Search command

  /** The path segment that restricts the search to houses with a garden. */
  const Garden: string := "tuin"

  /** The search command the builder appends: "/" and the location when one is
      given, "/tuin" when a garden is asked for, and a closing "/". */
  function SearchCommand(q: TopMakalaarsQuery): (s: string)
    ensures |s| > 0 && s[0] == '/' && s[|s| - 1] == '/'
    ensures |s| == (if IsNullOrEmpty(q.location) then 0 else |q.location.value| + 1)
      + (if q.withGarden then |Garden| + 1 else 0) + 1
  {
    (if IsNullOrEmpty(q.location) then "" else "/" + q.location.value)
    + (if q.withGarden then "/" + Garden else "")
    + "/"
  }

  /** The query with an empty location written as no location, which is how
      the builder treats it. */
  function Normalized(q: TopMakalaarsQuery): TopMakalaarsQuery
  {
    TopMakalaarsQuery(if IsNullOrEmpty(q.location) then None else q.location, q.withGarden)
  }

  /** Locations the command can carry without being misread: no '/' inside,
      and not the garden segment itself. */
  predicate PlainLocation(q: TopMakalaarsQuery)
  {
    IsNullOrEmpty(q.location) || ('/' !in q.location.value && q.location.value != Garden)
  }

  /** The segments between the leading and the closing '/'. */
  function Segments(q: TopMakalaarsQuery): seq<string>
  {
    (if IsNullOrEmpty(q.location) then [] else [q.location.value])
    + (if q.withGarden then [Garden] else [])
  }

  /** Reads a search command back into the query it was built from; None when
      the text is not one the builder writes. A lone "tuin" segment is read as
      the garden filter. */
  function ParseSearchCommand(s: string): Option<TopMakalaarsQuery>
  {
    var p := Split(s, '/');
    if |p| < 2 || p[0] != "" || p[|p| - 1] != "" then None
    else
      var m := p[1..|p| - 1];
      if |m| == 0 then Some(TopMakalaarsQuery(None, false))
      else if |m| == 1 then
        if m[0] == Garden then Some(TopMakalaarsQuery(None, true))
        else if m[0] == "" then None
        else Some(TopMakalaarsQuery(Some(m[0]), false))
      else if |m| == 2 && m[0] != "" && m[1] == Garden then
        Some(TopMakalaarsQuery(Some(m[0]), true))
      else None
  }

  /** The command splits at its slashes into an empty piece, the segments and
      another empty piece. */
  lemma SearchCommandSplits(q: TopMakalaarsQuery)
    requires PlainLocation(q)
    ensures Split(SearchCommand(q), '/') == [""] + Segments(q) + [""]
  {
    var segs := Segments(q);
    SearchCommandJoins(q);
    assert forall k :: 0 <= k < |segs| ==> '/' !in segs[k];
    var parts := [""] + segs + [""];
    assert forall k :: 0 <= k < |parts| ==> '/' !in parts[k];
    SplitJoin('/', parts);
  }

  /** The command is the segments joined with '/' between an empty first and
      an empty last piece. */
  lemma SearchCommandJoins(q: TopMakalaarsQuery)
    ensures SearchCommand(q) == Join('/', [""] + Segments(q) + [""])
  {
    var segs := Segments(q);
    JoinCons('/', "", segs + [""]);
    assert [""] + segs + [""] == [""] + (segs + [""]);
    if IsNullOrEmpty(q.location) {
      if q.withGarden {
        JoinTwo('/', Garden, "");
        assert segs + [""] == [Garden, ""];
      } else {
        assert segs + [""] == [""];
      }
    } else {
      var loc := q.location.value;
      if q.withGarden {
        JoinTwo('/', Garden, "");
        JoinCons('/', loc, [Garden, ""]);
        assert segs + [""] == [loc] + [Garden, ""];
      } else {
        JoinTwo('/', loc, "");
        assert segs + [""] == [loc, ""];
      }
    }
  }

  /** A plain query survives being written as a search command and read back. */
  lemma SearchCommandRoundTrip(q: TopMakalaarsQuery)
    requires PlainLocation(q)
    ensures ParseSearchCommand(SearchCommand(q)) == Some(Normalized(q))
  {
    SearchCommandSplits(q);
    var p := [""] + Segments(q) + [""];
    assert p[1..|p| - 1] == Segments(q);
  }

  /** Every command the parser accepts is the one the builder writes for the
      query it reads. */
  lemma ParsedSearchCommand(s: string)
    requires ParseSearchCommand(s).Some?
    ensures SearchCommand(ParseSearchCommand(s).value) == s
  {
    var q := ParseSearchCommand(s).value;
    var p := Split(s, '/');
    var m := p[1..|p| - 1];
    assert m == Segments(q);
    assert p == [""] + m + [""];
    JoinSplit(s, '/');
    SearchCommandJoins(q);
  }

  /** A location spelled like the garden segment cannot be told apart from the
      garden filter: both queries produce "/tuin/". */
  lemma GardenLocationAmbiguous()
    ensures SearchCommand(TopMakalaarsQuery(Some(Garden), false))
      == SearchCommand(TopMakalaarsQuery(None, true))
  {
  }

  // ---------------------------------------------------------------------
  // Options

  /** Options for the first request: the default page and page size, the buy
      type and the search command built from the query. */
  method BuildGetOffersOptions(request: TopMakalaarsQuery) returns (options: GetOffersOptions)
    ensures fresh(options)
    ensures options.page == DefaultPage && options.pageSize == DefaultPageSize
    ensures options.offerType == Some(Koop)
    ensures options.searchCommand == Some(SearchCommand(request))
  {
    options := new GetOffersOptions();
    options.offerType := Some(Koop);
    options.searchCommand := Some(SearchCommand(request));
  }

  // ---------------------------------------------------------------------
  // Later pages

  /** How many iterations `Parallel.For(2, totalPages + 1, ...)` runs: one per
      page after the first. The bound is an unchecked `int` addition, so a
      total of `int.MaxValue` wraps it to the smallest `int` and runs none. */
  function LaterPageCount(totalPages: int32): (n: nat)
    ensures 2 <= totalPages < MaxValue ==> n == totalPages - 1
    ensures totalPages < 2 || totalPages == MaxValue ==> n == 0
  {
    var upper := Wrap(totalPages + 1);
    if upper > 2 then upper - 2 else 0
  }

  /** The offers a later response contributes: none when the response or its
      offer list is null. */
  function OffersOf(response: Option<GetOffersResult>): seq<Offer>
  {
    if response.Some? && response.value.offers.Some? then response.value.offers.value else []
  }

  /** The offers of the later responses appended in the order they arrived. */
  function Received(responses: seq<Option<GetOffersResult>>): seq<Offer>
  {
    if |responses| == 0 then []
    else Received(responses[..|responses| - 1]) + OffersOf(responses[|responses| - 1])
  }

  /** Receiving two batches of responses one after the other appends their offers. */
  lemma {:induction false} ReceivedAppend(a: seq<Option<GetOffersResult>>, b: seq<Option<GetOffersResult>>)
    ensures Received(a + b) == Received(a) + Received(b)
    decreases |b|
  {
    if |b| == 0 {
      assert a + b == a;
    } else {
      var last := b[|b| - 1];
      var front := b[..|b| - 1];
      assert (a + b)[..|a + b| - 1] == a + front;
      assert (a + b)[|a + b| - 1] == last;
      ReceivedAppend(a, front);
      calc {
        Received(a + b);
        Received(a + front) + OffersOf(last);
        (Received(a) + Received(front)) + OffersOf(last);
        Received(a) + (Received(front) + OffersOf(last));
        Received(a) + Received(b);
      }
    }
  }

  /** A broker's listings in two offer lists side by side add up. */
  lemma ListingsAppend(xs: seq<Offer>, ys: seq<Offer>, id: int32)
    ensures Listings(xs + ys, id) == Listings(xs, id) + Listings(ys, id)
  {
    assert MakelaarIds(xs + ys) == MakelaarIds(xs) + MakelaarIds(ys);
  }

  /** A broker's listings over the initial offers and the later responses are
      the initial count plus the count in each response. */
  lemma ListingsOfParts(initial: seq<Offer>, a: seq<Option<GetOffersResult>>,
                        x: Option<GetOffersResult>, y: Option<GetOffersResult>,
                        b: seq<Option<GetOffersResult>>, id: int32)
    ensures Listings(initial + Received(a + [x, y] + b), id)
      == Listings(initial, id) + Listings(Received(a), id) + Listings(OffersOf(x), id)
        + Listings(OffersOf(y), id) + Listings(Received(b), id)
  {
    var ra, rb, ox, oy := Received(a), Received(b), OffersOf(x), OffersOf(y);
    ReceivedAround(a, x, y, b);
    ListingsAppend(initial, ra + (ox + oy) + rb, id);
    ListingsAppend(ra + (ox + oy), rb, id);
    ListingsAppend(ra, ox + oy, id);
    ListingsAppend(ox, oy, id);
  }

  /** The offers received around two adjacent responses. */
  lemma ReceivedAround(a: seq<Option<GetOffersResult>>, x: Option<GetOffersResult>,
                       y: Option<GetOffersResult>, b: seq<Option<GetOffersResult>>)
    ensures Received(a + [x, y] + b) == Received(a) + (OffersOf(x) + OffersOf(y)) + Received(b)
  {
    var r := Received(a + [x, y]);
    ReceivedAppend(a + [x, y], b);
    ReceivedAppend(a, [x, y]);
    ReceivedPair(x, y);
    assert r == Received(a) + (OffersOf(x) + OffersOf(y));
  }

  lemma ReceivedPair(x: Option<GetOffersResult>, y: Option<GetOffersResult>)
    ensures Received([x, y]) == OffersOf(x) + OffersOf(y)
  {
    assert [x, y][..1] == [x];
    assert [x][..0] == [];
    assert Received([x]) == [] + OffersOf(x);
    assert [] + OffersOf(x) == OffersOf(x);
  }

  /** Which of two responses arrives first does not change how many listings
      any broker is counted with: only the order of the merged offers moves. */
  lemma ArrivalOrderKeepsListings(initial: seq<Offer>, a: seq<Option<GetOffersResult>>,
                                  x: Option<GetOffersResult>, y: Option<GetOffersResult>,
                                  b: seq<Option<GetOffersResult>>, id: int32)
    ensures Listings(initial + Received(a + [x, y] + b), id)
      == Listings(initial + Received(a + [y, x] + b), id)
  {
    ListingsOfParts(initial, a, x, y, b, id);
    ListingsOfParts(initial, a, y, x, b, id);
  }

  // ---------------------------------------------------------------------
  // The handler

  /** `Handle`. The feed client is replaced by its answers: `initial` answers
      the first request, and `responses` holds the answers to the later
      requests that were merged before the ranking was built, in the order they
      arrived. Alongside the outcome it returns the options of every request
      the handler sends. */
  method Handle(request: TopMakalaarsQuery, initial: Option<GetOffersResult>,
                responses: seq<Option<GetOffersResult>>)
    returns (outcome: Result<TopMakelaarsResult, Exception>, requests: seq<FeedQuery>)
    ensures |requests| >= 1
    ensures requests[0] ==
      FeedQuery(DefaultPage, DefaultPageSize, Some(SearchCommand(request)), Some(Koop))
    ensures initial.None? || initial.value.paging.None? ==>
      outcome == Failure(NullReferenceException) && |requests| == 1
    ensures initial.Some? && initial.value.paging.Some? && initial.value.offers.None? ==>
      outcome == Failure(ArgumentNullException("collection")) && |requests| == 1
    ensures outcome.Success? <==>
      initial.Some? && initial.value.paging.Some? && initial.value.offers.Some?
    ensures outcome.Success? ==>
      var later := LaterPageCount(initial.value.paging.value.totalPages);
      var merged := initial.value.offers.value + Received(responses[..Min(later, |responses|)]);
      && |requests| == 1 + later
      && requests[1..] == AsWrittenLaterRequests(requests[0], later)
      && outcome.value == TopMakelaarsResult(TopMakelaars(merged), Ok)
  {
    var options := BuildGetOffersOptions(request);
    var first := options.Snapshot();
    assert first == FeedQuery(DefaultPage, DefaultPageSize, Some(SearchCommand(request)), Some(Koop));
    requests := [first];
    if initial.None? || initial.value.paging.None? {
      return Failure(NullReferenceException), requests;
    }
    var totalPages := initial.value.paging.value.totalPages;
    if initial.value.offers.None? {
      return Failure(ArgumentNullException("collection")), requests;
    }
    var offers := initial.value.offers.value;
    var count := LaterPageCount(totalPages);
    var k := 0;
    while k < count
      invariant 0 <= k <= count
      invariant |requests| == k + 1
      invariant requests[0] == first && options.Snapshot() == first
      invariant requests[1..] == AsWrittenLaterRequests(requests[0], k)
      invariant offers == initial.value.offers.value + Received(responses[..Min(k, |responses|)])
    {
      var next := options.Copy();
      next := next.IncreasePage();
      requests := requests + [next.Snapshot()];
      if k < |responses| {
        assert responses[..k + 1][..k] == responses[..k];
        offers := offers + OffersOf(responses[k]);
      }
      k := k + 1;
    }
    outcome := Success(TopMakelaarsResult(TopMakelaars(offers), Ok));
  }

  /** The later requests as the handler sends them: each is a copy of the first
      request's options moved on by one page, so every one asks for page 2. */
  function AsWrittenLaterRequests(first: FeedQuery, count: nat): (rs: seq<FeedQuery>)
    ensures |rs| == count
  {
    seq(count, _ => first.(page := NextPage(first.page)))
  }

  /** With three pages, the handler asks for pages 1, 2 and 2 again; page 3 is
      never requested. */
  lemma AsWrittenSkipsPages(first: FeedQuery)
    requires first.page == DefaultPage
    ensures var rs := [first] + AsWrittenLaterRequests(first, LaterPageCount(3));
      && |rs| == 3
      && rs[1].page == 2 && rs[2].page == 2
      && (forall j :: 0 <= j < |rs| ==> rs[j].page != 3)
  {
  }

  /** The later requests the handler evidently means to send: pages 2 up to the
      total page count, each with the first request's other options. */
  function IntendedLaterRequests(first: FeedQuery, totalPages: int32): (rs: seq<FeedQuery>)
    ensures |rs| == LaterPageCount(totalPages)
  {
    seq(LaterPageCount(totalPages), j requires 0 <= j < LaterPageCount(totalPages) =>
      first.(page := j + 2))
  }

  /** Together with the first request, the intended requests ask for the
      pages from 1 to the total, each once and in order, and otherwise repeat
      the first request's options. */
  lemma IntendedRequestsCoverPages(first: FeedQuery, totalPages: int32)
    requires first.page == DefaultPage && 1 <= totalPages < MaxValue
    ensures var rs := [first] + IntendedLaterRequests(first, totalPages);
      && |rs| == totalPages
      && (forall j :: 0 <= j < |rs| ==> rs[j] == first.(page := j + 1))
  {
  }
}
