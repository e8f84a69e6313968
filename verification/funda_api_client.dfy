/** The feed client: how a request is built from the options object and how
    the decoded response body becomes a result. The HTTP exchange and the
    JSON decoding themselves are outside the model; the decoded body is an
    input. */
module FundaApiClient {
  import opened Optional
  import opened Int32s
  import opened Decimal
  import opened Text
  import opened Models
  import opened GetOffers

  // ---------------------------------------------------------------------
  // Construction

  /** The configuration the client is constructed from. */
  datatype FundaApiClientOptions = FundaApiClientOptions(
    apiUrl: Option<string>,
    apiKey: Option<string>,
    defaultPageSize: int32)

  /** A constructed client keeps the URL and key it was checked to have. */
  datatype Client = Client(apiUrl: string, apiKey: string, options: FundaApiClientOptions)

  predicate Configured(c: Client)
  {
    && |c.apiUrl| > 0 && |c.apiKey| > 0
    && c.options.apiUrl == Some(c.apiUrl) && c.options.apiKey == Some(c.apiKey)
  }

  /** The constructor: it rejects a null or empty URL first, then a null or empty key. */
  function NewClient(options: FundaApiClientOptions): (r: Result<Client, Exception>)
    ensures r.Success? <==> !IsNullOrEmpty(options.apiUrl) && !IsNullOrEmpty(options.apiKey)
    ensures r.Success? ==> Configured(r.value) && r.value.options == options
    ensures IsNullOrEmpty(options.apiUrl) ==> r == Failure(ArgumentNullException("ApiUrl"))
    ensures !IsNullOrEmpty(options.apiUrl) && IsNullOrEmpty(options.apiKey) ==>
      r == Failure(ArgumentNullException("ApiKey"))
  {
    if IsNullOrEmpty(options.apiUrl) then Failure(ArgumentNullException("ApiUrl"))
    else if IsNullOrEmpty(options.apiKey) then Failure(ArgumentNullException("ApiKey"))
    else Success(Client(options.apiUrl.value, options.apiKey.value, options))
  }

  // ---------------------------------------------------------------------
  // Request

  const ServicePath: string := "/feeds/Aanbod.svc"

  /** Lower-cases the first character of a non-empty string. */
  function FirstCharLower(s: Option<string>): (r: Option<string>)
    ensures IsNullOrEmpty(s) ==> r == s
    ensures !IsNullOrEmpty(s) ==>
      && r.Some? && |r.value| == |s.value|
      && r.value[0] == ToLowerAscii(s.value[0])
      && r.value[1..] == s.value[1..]
  {
    if IsNullOrEmpty(s) then s else Some([ToLowerAscii(s.value[0])] + s.value[1..])
  }

  /** Lower-casing the first character twice is lower-casing it once. */
  lemma FirstCharLowerIdempotent(s: Option<string>)
    ensures FirstCharLower(FirstCharLower(s)) == FirstCharLower(s)
  {
  }

  /** The value of the `type` parameter: the member name with a lower-case first letter. */
  function TypeValue(t: OfferType): string
  {
    FirstCharLower(Some(OfferTypeName(t))).value
  }

  /** `name=value`, as the interpolated parameter strings write it. */
  function Parameter(name: string, value: string): string
  {
    name + "=" + value
  }

  /** The query parameters of a feed request, in the order they are sent. */
  function Parameters(q: FeedQuery): (ps: seq<string>)
    ensures |ps| == 2 + (if q.offerType.Some? then 1 else 0) + (if q.searchCommand.Some? then 1 else 0)
  {
    [Parameter("page", Format(q.page)), Parameter("PageSize", Format(q.pageSize))]
    + (if q.offerType.Some? then [Parameter("type", TypeValue(q.offerType.value))] else [])
    + (if q.searchCommand.Some? then [Parameter("zo", q.searchCommand.value)] else [])
  }

  /** The parts of a request URL the client sets. */
  datatype RequestUrl = RequestUrl(baseUrl: string, path: string, query: string)

  /** The request URL: the configured base, the service path and the key
      joined by '/', and '?' before the parameters joined by '&'. */
  function BuildRequestUrl(client: Client, servicePath: string, parameters: seq<string>): (r: RequestUrl)
    ensures r.baseUrl == client.apiUrl
    ensures r.path == servicePath + "/" + client.apiKey
    ensures Split(r.path, '/') == Split(servicePath, '/') + Split(client.apiKey, '/')
    ensures r.query == "?" + Join('&', parameters)
    ensures |parameters| > 0 && (forall k :: 0 <= k < |parameters| ==> '&' !in parameters[k]) ==>
      Split(r.query[1..], '&') == parameters
  {
    var path := Join('/', [servicePath, client.apiKey]);
    var query := "?" + Join('&', parameters);
    assert query[1..] == Join('&', parameters);
    JoinTwo('/', servicePath, client.apiKey);
    SplitConcat(servicePath, '/', client.apiKey);
    SplitJoinWhenFree(parameters);
    RequestUrl(client.apiUrl, path, query)
  }

  lemma SplitJoinWhenFree(parameters: seq<string>)
    ensures |parameters| > 0 && (forall k :: 0 <= k < |parameters| ==> '&' !in parameters[k]) ==>
      Split(Join('&', parameters), '&') == parameters
  {
    if |parameters| > 0 && (forall k :: 0 <= k < |parameters| ==> '&' !in parameters[k]) {
      SplitJoin('&', parameters);
    }
  }

  /** Parameter values are not escaped, so an '&' inside a value cannot be
      told from a separator: a search command such as "/a&b/" (built from the
      location "a&b") gives the same URL as a search command "/a" followed by a
      stray parameter "b/". */
  lemma AmpersandInValueAmbiguous(client: Client, servicePath: string)
    ensures BuildRequestUrl(client, servicePath, [Parameter("zo", "/a&b/")])
         == BuildRequestUrl(client, servicePath, [Parameter("zo", "/a"), "b/"])
  {
    AmpersandJoins();
  }

  lemma AmpersandJoins()
    ensures Join('&', [Parameter("zo", "/a&b/")]) == Join('&', [Parameter("zo", "/a"), "b/"])
  {
    assert Join('&', [Parameter("zo", "/a&b/")]) == "zo=/a&b/";
    JoinTwo('&', Parameter("zo", "/a"), "b/");
    assert "zo=/a&b/" == "zo=/a" + ['&'] + "b/";
  }

  /** The request a `GetOffers` call sends for the options' current values. */
  function GetOffersRequest(client: Client, q: FeedQuery): RequestUrl
  {
    BuildRequestUrl(client, ServicePath, Parameters(q))
  }

  /** The decimal text of a number holds no '&'. */
  lemma FormatHasNoAmpersand(n: int)
    ensures '&' !in Format(n)
  {
    if n < 0 {
      var digits := FormatNat(-n);
      assert Format(n) == "-" + digits;
      assert forall i :: 0 <= i < |digits| ==> IsDigit(digits[i]);
    }
  }

  /** No parameter holds an '&' unless the search command does. */
  lemma ParametersFreeOfAmpersand(q: FeedQuery)
    requires q.searchCommand.Some? ==> '&' !in q.searchCommand.value
    ensures forall k :: 0 <= k < |Parameters(q)| ==> '&' !in Parameters(q)[k]
  {
    FormatHasNoAmpersand(q.page);
    FormatHasNoAmpersand(q.pageSize);
    ParametersTail(q);
    var ps := Parameters(q);
    assert ps[0] == "page=" + Format(q.page);
    assert ps[1] == "PageSize=" + Format(q.pageSize);
    if q.offerType.Some? {
      assert TypeValue(q.offerType.value) == "koop";
    }
  }

  /** The request a `GetOffers` call sends goes to the feed's service path
      under the key, and its query reads back as the options it was built
      from, as long as the search command holds no '&'. */
  lemma GetOffersRequestRoundTrip(client: Client, q: FeedQuery)
    requires q.searchCommand.Some? ==> '&' !in q.searchCommand.value
    ensures GetOffersRequest(client, q).baseUrl == client.apiUrl
    ensures GetOffersRequest(client, q).path == ServicePath + "/" + client.apiKey
    ensures DecodeParameters(Split(GetOffersRequest(client, q).query[1..], '&')) == Some(q)
  {
    var ps := Parameters(q);
    ParametersFreeOfAmpersand(q);
    var r := BuildRequestUrl(client, ServicePath, ps);
    assert Split(r.query[1..], '&') == ps;
    ParametersRoundTrip(q);
  }

  // ---------------------------------------------------------------------
  // Reading a parameter list back

  /** Cuts a parameter at its first '=' into name and value. */
  function NameValue(p: string): (string, string)
  {
    match IndexOf(p, '=')
    case None => (p, "")
    case Some(i) => (p[..i], p[i + 1..])
  }

  lemma NameValueOf(name: string, value: string)
    requires '=' !in name
    ensures NameValue(Parameter(name, value)) == (name, value)
  {
    var p := Parameter(name, value);
    assert p == name + ['='] + value;
    IndexOfAfterPrefix(name, '=', value);
    assert p[..|name|] == name && p[|name| + 1..] == value;
  }

  function ParseInt32(s: string): Option<int32>
  {
    match Parse(s)
    case None => None
    case Some(n) => if MinValue <= n <= MaxValue then Some(n) else None
  }

  function ParseOfferType(s: string): Option<OfferType>
  {
    if s == TypeValue(Koop) then Some(Koop) else None
  }

  /** Every offer type reads back from its parameter value. */
  lemma OfferTypeRoundTrip(t: OfferType)
    ensures ParseOfferType(TypeValue(t)) == Some(t)
  {
    match t
    case Koop =>
      assert t == Koop;
  }

  /** Reads the values of a feed query back from its parameter list; None when
      the list is not one that `Parameters` writes. */
  function DecodeParameters(ps: seq<string>): Option<FeedQuery>
  {
    if |ps| < 2 || NameValue(ps[0]).0 != "page" || NameValue(ps[1]).0 != "PageSize" then None
    else
      var page := ParseInt32(NameValue(ps[0]).1);
      var pageSize := ParseInt32(NameValue(ps[1]).1);
      var rest := ps[2..];
      var hasType := |rest| > 0 && NameValue(rest[0]).0 == "type";
      var offerType := if hasType then ParseOfferType(NameValue(rest[0]).1) else None;
      var tail := if hasType then rest[1..] else rest;
      if page.None? || pageSize.None? || (hasType && offerType.None?) then None
      else if |tail| == 0 then Some(FeedQuery(page.value, pageSize.value, None, offerType))
      else if |tail| == 1 && NameValue(tail[0]).0 == "zo" then
        Some(FeedQuery(page.value, pageSize.value, Some(NameValue(tail[0]).1), offerType))
      else None
  }

  /** The page and page size lead the list and read back unchanged. */
  lemma ParametersHead(q: FeedQuery)
    ensures var ps := Parameters(q);
      && NameValue(ps[0]) == ("page", Format(q.page))
      && NameValue(ps[1]) == ("PageSize", Format(q.pageSize))
      && ParseInt32(Format(q.page)) == Some(q.page)
      && ParseInt32(Format(q.pageSize)) == Some(q.pageSize)
  {
    NameValueOf("page", Format(q.page));
    NameValueOf("PageSize", Format(q.pageSize));
    ParseFormat(q.page);
    ParseFormat(q.pageSize);
  }

  /** What follows the page size: the type parameter when a type is set, then
      the search parameter when a search command is set. */
  lemma ParametersTail(q: FeedQuery)
    ensures Parameters(q)[2..] ==
      (if q.offerType.Some? then [Parameter("type", TypeValue(q.offerType.value))] else [])
      + (if q.searchCommand.Some? then [Parameter("zo", q.searchCommand.value)] else [])
  {
  }

  /** The parameter list says exactly what the options held: page, page size,
      offer type and search command all read back unchanged. */
  lemma ParametersRoundTrip(q: FeedQuery)
    ensures DecodeParameters(Parameters(q)) == Some(q)
  {
    ParametersHead(q);
    ParametersTail(q);
    var rest := Parameters(q)[2..];
    var zo := if q.searchCommand.Some? then [Parameter("zo", q.searchCommand.value)] else [];
    if q.searchCommand.Some? {
      NameValueOf("zo", q.searchCommand.value);
    }
    if q.offerType.Some? {
      NameValueOf("type", TypeValue(q.offerType.value));
      OfferTypeRoundTrip(q.offerType.value);
      assert rest == [Parameter("type", TypeValue(q.offerType.value))] + zo;
      assert rest[1..] == zo;
    } else {
      assert rest == zo;
    }
  }

  // ---------------------------------------------------------------------
  // Response

  /** One element of the decoded `Objects` array. */
  datatype ContentObject = ContentObject(
    id: Guid,
    makelaarId: int32,
    makelaarNaam: Option<string>,
    isVerkocht: bool,
    verkoopStatus: Option<string>)

  /** The decoded `Paging` object. */
  datatype ContentPaging = ContentPaging(
    aantalPaginas: int32,
    huidigePagina: int32,
    volgendeUrl: Option<string>,
    vorigeUrl: Option<string>)

  /** The decoded response body; absent members are null, or 0 for numbers. */
  datatype Content = Content(
    objects: Option<seq<ContentObject>>,
    paging: Option<ContentPaging>,
    totaalAantalObjecten: int32)

  function ToOffer(o: ContentObject): Offer
  {
    Offer(o.id, o.makelaarId, o.makelaarNaam, o.isVerkocht, o.verkoopStatus)
  }

  function ToOffers(objects: seq<ContentObject>): (offers: seq<Offer>)
    ensures |offers| == |objects|
    ensures forall k :: 0 <= k < |objects| ==> offers[k] == ToOffer(objects[k])
  {
    seq(|objects|, k requires 0 <= k < |objects| => ToOffer(objects[k]))
  }

  /** Builds the result of `GetOffers` from the response status and the decoded
      body. A body without `Paging` makes the client dereference null. */
  function ToResult(status: StatusCode, content: Option<Content>): (r: Result<GetOffersResult, Exception>)
    ensures r.Failure? <==> content.Some? && content.value.paging.None?
    ensures r.Failure? ==> r.error == NullReferenceException
    ensures r.Success? ==> r.value.statusCode == status
    ensures content.None? ==> r.value.offers.None? && r.value.paging.None? && r.value.totalObjects == 0
    ensures r.Success? && content.Some? ==>
      && r.value.paging.Some?
      && r.value.paging.value.totalPages == content.value.paging.value.aantalPaginas
      && r.value.paging.value.currentPage == content.value.paging.value.huidigePagina
      && r.value.totalObjects == content.value.totaalAantalObjecten
      && (r.value.offers.None? <==> content.value.objects.None?)
  {
    var result := GetOffersResult(status, None, None, 0);
    match content
    case None => Success(result)
    case Some(c) =>
      match c.paging
      case None => Failure(NullReferenceException)
      case Some(p) =>
        var paging := PagingInfo(p.aantalPaginas, p.huidigePagina, p.volgendeUrl, p.vorigeUrl);
        var offers := if c.objects.Some? then Some(ToOffers(c.objects.value)) else None;
        Success(result.(paging := Some(paging), totalObjects := c.totaalAantalObjecten, offers := offers))
  }

  /** The decoded body as the result describes it. */
  function ContentOf(r: GetOffersResult): Content
    requires r.paging.Some?
  {
    var p := r.paging.value;
    var objects := if r.offers.Some? then Some(ToContentObjects(r.offers.value)) else None;
    Content(objects, Some(ContentPaging(p.totalPages, p.currentPage, p.nextUrl, p.previousUrl)), r.totalObjects)
  }

  function ToContentObjects(offers: seq<Offer>): seq<ContentObject>
  {
    seq(|offers|, k requires 0 <= k < |offers| =>
      ContentObject(offers[k].id, offers[k].makelaarId, offers[k].makelaarNaam, offers[k].isVerkocht, offers[k].verkoopStatus))
  }

  /** The mapping loses nothing: the offers keep the objects' order and fields,
      and the whole decoded body can be read back from the result. */
  lemma ToResultLossless(status: StatusCode, c: Content)
    requires c.paging.Some?
    ensures ToResult(status, Some(c)).Success?
    ensures ContentOf(ToResult(status, Some(c)).value) == c
  {
    var r := ToResult(status, Some(c)).value;
    if c.objects.Some? {
      assert ToContentObjects(r.offers.value) == c.objects.value;
    }
  }
}
