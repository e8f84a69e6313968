# Makelaars: top brokers by listing count

This project is a Dafny model of the part of the Makelaars application that
finds the ten estate agents (*makelaars*) with the most houses for sale. The
application pages through the Funda "Aanbod" feed to do this. It works in
three steps:

1. The query handler (`TopMekalaarsQueryHandler`) turns a location and a
   "with garden" flag into a Funda search command such as `/Amsterdam/tuin/`.
2. It asks the feed client (`FundaApiClient`) for the first page of offers.
   The number of pages that page reports decides how many more requests it
   sends.
3. It merges the first page's offers with those of every later response
   that arrives; as written, every later request asks for page 2 (see
   "## Findings"). It groups the merged offers by broker id, sorts the
   groups by count (highest first), keeps the first ten, and numbers them
   1, 2, 3, ….

The model is split into modules that follow the program's structure:

| module | models |
|---|---|
| `Optional` | `Option` (a C# null) and `Result` (a value or a thrown exception) |
| `Int32s` | C# `int` and its unchecked wrap-around |
| `Decimal` | `int.ToString()` in the invariant culture, and a parser that reads it back |
| `Text` | `string.IsNullOrEmpty`, ASCII lower-casing, `IndexOf`, `string.Join` and its inverse `Split` |
| `Models` | `Offer`, `PagingInfo`, and the exceptions the core can throw |
| `GetOffers` | `GetOffersOptions` (defaults, `Copy`, `IncreasePage`), `OfferTypes` and `GetOffersResult` |
| `Queries` | `TopMakalaarsQuery`, `TopMakelaar` and `TopMakelaarsResult` |
| `FundaApiClient` | the constructor's checks, the query parameter list, `BuildRequestUrl`, `FirstCharLower`, and the mapping from decoded response to result |
| `Ranking` | the LINQ pipeline `GroupBy` / `Select` / `OrderByDescending` / `Take(10)` / rank numbering |
| `QueryHandler` | `BuildGetOffersOptions` and `Handle` |
| `Scenarios` | the handler's unit tests, restated as lemmas about the model |

How the model treats the parts it does not compute:

- **Feed answers are inputs.** `QueryHandler.Handle` takes the first page's
  result as an input. It also takes the results of the later requests: a
  sequence in the order they were merged, each possibly null.
  `Handle` returns the options of every request it sends, so a caller can
  see what the handler asked for.
- **Concurrency.** `Parallel.For` with an `async` lambda does not wait for
  its requests. The model ranks exactly the responses merged before the
  ranking is built, in arrival order. `QueryHandler.ArrivalOrderKeepsListings`
  shows that the arrival order does not change any broker's count.
- **HTTP and JSON.** A request URL is modelled as its parts: base URL, path
  and query. A response body is modelled as the object that JSON decoding
  produces.
- **Integers.** C# `int` is `Int32s.int32`. Both places where the C# code can
  overflow wrap explicitly: `totalPages + 1` and `Page++`.

## Model

| member | source | states |
|---|---|---|
| `GetOffers.OfferTypeName` | Makelaars/Infrastructure/Funda/Operations/GetOffers.cs:32-35 | the name of the single offer type is non-empty (it is `Koop`) |
| `GetOffers.NextPage` | Makelaars/Infrastructure/Funda/Operations/GetOffers.cs:25-29 | `Page++` adds one below `int.MaxValue` and wraps to `int.MinValue` at it |
| `GetOffers.GetOffersOptions.constructor` | Makelaars/Infrastructure/Funda/Operations/GetOffers.cs:7-12 | a new options object asks for page 1 with page size 25, and has no search command and no type |
| `GetOffers.GetOffersOptions.Copy` | Makelaars/Infrastructure/Funda/Operations/GetOffers.cs:14-23 | the copy is a new object with the same page, page size, search command and type |
| `GetOffers.GetOffersOptions.IncreasePage` | Makelaars/Infrastructure/Funda/Operations/GetOffers.cs:25-29 | the page moves on by one (wrapping), the other options stay, and the same object is returned |
| `FundaApiClient.NewClient` | Makelaars/Infrastructure/Funda/FundaApiClient.cs:19-29 | construction succeeds exactly when URL and key are both non-empty; a missing URL throws `ArgumentNullException("ApiUrl")` first, then a missing key throws `ArgumentNullException("ApiKey")` |
| `FundaApiClient.FirstCharLower` | Makelaars/Infrastructure/Funda/FundaApiClient.cs:126-129 | a null or empty string comes back unchanged; otherwise only the first character is lower-cased and the length is kept |
| `FundaApiClient.FirstCharLowerIdempotent` | Makelaars/Infrastructure/Funda/FundaApiClient.cs:126-129 | applying it twice gives the same as applying it once |
| `FundaApiClient.Parameters` | Makelaars/Infrastructure/Funda/FundaApiClient.cs:44-57 | there are two parameters, plus one for a type and one for a search command when those are set |
| `FundaApiClient.ParametersHead` | Makelaars/Infrastructure/Funda/FundaApiClient.cs:44-48 | the list starts with `page=<page>` and `PageSize=<size>` |
| `FundaApiClient.OfferTypeRoundTrip` | Makelaars/Infrastructure/Funda/FundaApiClient.cs:49-53 | the lower-cased type name in `type=` reads back as the same offer type |
| `FundaApiClient.NameValueOf` | Makelaars/Infrastructure/Funda/FundaApiClient.cs:46-56 | a `name=value` parameter cuts back into its name and value |
| `FundaApiClient.ParametersRoundTrip` | Makelaars/Infrastructure/Funda/FundaApiClient.cs:44-57 | the parameter list decodes back to exactly the options it was built from: page, page size, type and search command, each set or unset |
| `FundaApiClient.BuildRequestUrl` | Makelaars/Infrastructure/Funda/FundaApiClient.cs:116-124 | the base URL is the configured one; the path is the service path, `/` and the key, and it splits at `/` into the service path's segments followed by the key's; the query is `?` followed by the parameters joined by `&`, for every parameter list |
| `FundaApiClient.AmpersandInValueAmbiguous` | Makelaars/Infrastructure/Funda/FundaApiClient.cs:54-57 | a search command containing `&` is not escaped, so `zo=/a&b/` gives the same URL as the two parameters `zo=/a` and `b/` |
| `FundaApiClient.GetOffersRequestRoundTrip` | Makelaars/Infrastructure/Funda/FundaApiClient.cs:41-58 | the request a `GetOffers` call sends goes to the configured base URL, at path `/feeds/Aanbod.svc/` followed by the key; when the search command holds no `&`, its query splits at `&` and decodes back to exactly the options it was built from |
| `FundaApiClient.ToOffers` | Makelaars/Infrastructure/Funda/FundaApiClient.cs:100-110 | one offer per decoded object, in order, with every field copied |
| `FundaApiClient.ToResult` | Makelaars/Infrastructure/Funda/FundaApiClient.cs:86-113 | the status code is always kept; a null body gives a result without offers or paging; a body without `Paging` throws `NullReferenceException`; otherwise the page numbers and the object total come from the body, and the offers are null exactly when `Objects` is null |
| `FundaApiClient.ToResultLossless` | Makelaars/Infrastructure/Funda/FundaApiClient.cs:86-111 | a body with paging maps to a result from which the body can be rebuilt unchanged |
| `Decimal.ParseFormat` | Makelaars/Infrastructure/Funda/FundaApiClient.cs:46-47 | the decimal text of any integer, negative ones included, reads back as that integer |
| `Text.ToLowerAscii` | Makelaars/Infrastructure/Funda/FundaApiClient.cs:128 | the result is never an upper-case letter; upper-case letters map to the matching lower-case letter and every other character is unchanged |
| `Text.SplitJoin` | Makelaars/Infrastructure/Funda/FundaApiClient.cs:121 | parts that do not contain the separator are recovered by splitting what `string.Join` made of them |
| `Text.JoinSplit` | Makelaars/Infrastructure/Funda/FundaApiClient.cs:120-121 | joining the pieces of any split gives back the original string |
| `Text.SplitConcat` | Makelaars/Infrastructure/Funda/FundaApiClient.cs:120 | splitting `a + sep + b` gives the pieces of `a` followed by the pieces of `b` |
| `QueryHandler.SearchCommand` | Makelaars/Application/QueryHandlers/TopMekalaarsQueryHandler.cs:81-90 | the command starts and ends with `/`; its length is one, plus the location's length and one when a location is given, plus five for `tuin/` when a garden is wanted |
| `QueryHandler.SearchCommandJoins` | Makelaars/Application/QueryHandlers/TopMekalaarsQueryHandler.cs:81-90 | for every query, the command is the segments (the location if one is given, then `tuin` if a garden is wanted) between a leading and a closing `/`, joined by `/` |
| `QueryHandler.SearchCommandRoundTrip` | Makelaars/Application/QueryHandlers/TopMekalaarsQueryHandler.cs:81-90 | a location without `/` and other than `tuin` can be read back from the command, with the garden flag (an empty location reads back as none) |
| `QueryHandler.ParsedSearchCommand` | Makelaars/Application/QueryHandlers/TopMekalaarsQueryHandler.cs:81-90 | every string that reads back as a query is exactly the command built for that query |
| `QueryHandler.GardenLocationAmbiguous` | Makelaars/Application/QueryHandlers/TopMekalaarsQueryHandler.cs:82-90 | the location `tuin` without a garden and no location with a garden give the same command |
| `QueryHandler.BuildGetOffersOptions` | Makelaars/Application/QueryHandlers/TopMekalaarsQueryHandler.cs:79-97 | new options with the default page (1) and page size (25), type `Koop` and the query's search command |
| `QueryHandler.LaterPageCount` | Makelaars/Application/QueryHandlers/TopMekalaarsQueryHandler.cs:39 | `Parallel.For(2, totalPages + 1)` runs `totalPages - 1` times when there are at least two pages, and not at all when there are fewer, or when `totalPages + 1` wraps |
| `QueryHandler.ReceivedAppend` | Makelaars/Application/QueryHandlers/TopMekalaarsQueryHandler.cs:43-48 | merging two runs of responses one after the other is the same as merging them as one run |
| `QueryHandler.ListingsAppend` | Makelaars/Application/QueryHandlers/TopMekalaarsQueryHandler.cs:47 | a broker's count in merged offers is the sum of its counts in the parts |
| `QueryHandler.ArrivalOrderKeepsListings` | Makelaars/Application/QueryHandlers/TopMekalaarsQueryHandler.cs:39-50 | swapping the arrival order of two responses does not change any broker's listing count |
| `QueryHandler.Handle` | Makelaars/Application/QueryHandlers/TopMekalaarsQueryHandler.cs:24-77 | the first request uses the built options; a null first result or null paging throws `NullReferenceException`, and null offers throw `ArgumentNullException("collection")`, both before any further request; otherwise the handler sends one later request per page from 2 to the total, each for page 2, and the result is `Ok` with the ranking of the first page's offers followed by the merged later offers |
| `QueryHandler.AsWrittenLaterRequests` | Makelaars/Application/QueryHandlers/TopMekalaarsQueryHandler.cs:41 | there is one later request per loop iteration |
| `QueryHandler.AsWrittenSkipsPages` | Makelaars/Application/QueryHandlers/TopMekalaarsQueryHandler.cs:39-42 | with three pages the handler asks for pages 1, 2, 2 and never for page 3 |
| `QueryHandler.IntendedLaterRequests` | Makelaars/Application/QueryHandlers/TopMekalaarsQueryHandler.cs:39-42 | there is one corrected request per page after the first |
| `QueryHandler.IntendedRequestsCoverPages` | Makelaars/Application/QueryHandlers/TopMekalaarsQueryHandler.cs:39-42 | with the corrected requests, request `j` asks for page `j + 1`, so pages 1 to the total are each asked for once, in order, with the first request's other options |
| `Ranking.FirstIndexBrokers` | Makelaars/Application/QueryHandlers/TopMekalaarsQueryHandler.cs:55-59 | a broker has a first offer exactly when it is among the offers' brokers |
| `Ranking.AddToGroupsJoins` | Makelaars/Application/QueryHandlers/TopMekalaarsQueryHandler.cs:55-60 | an offer of a broker already seen adds one to that broker's group and changes nothing else |
| `Ranking.AddToGroupsOpens` | Makelaars/Application/QueryHandlers/TopMekalaarsQueryHandler.cs:55-60 | an offer of a new broker opens a group at the end with that offer's name and count 1 |
| `Ranking.JoinKeepsGroupsOf` | Makelaars/Application/QueryHandlers/TopMekalaarsQueryHandler.cs:55-61 | adding an offer of a known broker keeps the groups a faithful grouping |
| `Ranking.OpenKeepsGroupsOf` | Makelaars/Application/QueryHandlers/TopMekalaarsQueryHandler.cs:55-61 | adding an offer of a new broker keeps the groups a faithful grouping |
| `Ranking.GroupByMakelaarGroups` | Makelaars/Application/QueryHandlers/TopMekalaarsQueryHandler.cs:54-61 | the groups cover every broker once, in order of first appearance, each with its listing count and the name on its first offer |
| `Ranking.GroupCount` | Makelaars/Application/QueryHandlers/TopMekalaarsQueryHandler.cs:54-61 | there are exactly as many groups as distinct brokers |
| `Ranking.InsertByCount` | Makelaars/Application/QueryHandlers/TopMekalaarsQueryHandler.cs:62 | inserting keeps every element: the result is the old list plus the new element, as a multiset |
| `Ranking.SortByCountDescending` | Makelaars/Application/QueryHandlers/TopMekalaarsQueryHandler.cs:62 | sorting is a permutation of its input |
| `Ranking.SortByCountRanked` | Makelaars/Application/QueryHandlers/TopMekalaarsQueryHandler.cs:62 | sorting groups listed in first-seen order gives descending counts, with ties kept in first-seen order (a stable sort) |
| `Ranking.NumberFromRanks` | Makelaars/Application/QueryHandlers/TopMekalaarsQueryHandler.cs:53-69 | numbering from `rank` gives entry `i` the rank `rank + i` and changes nothing else |
| `Ranking.TopMakelaarsPrefix` | Makelaars/Application/QueryHandlers/TopMekalaarsQueryHandler.cs:54-69 | the ranking is the first ten sorted groups (or all of them, if fewer), entry `i` numbered `i + 1` |
| `Ranking.SortedGroups` | Makelaars/Application/QueryHandlers/TopMekalaarsQueryHandler.cs:54-62 | the sorted groups are a ranked permutation of the groups and each describes a broker faithfully |
| `Ranking.TopMakelaarsDescribe` | Makelaars/Application/QueryHandlers/TopMekalaarsQueryHandler.cs:54-69 | every entry is a broker from the offers, with its true listing count, the name on its first offer, and rank equal to its position plus one |
| `Ranking.TopMakelaarsOrder` | Makelaars/Application/QueryHandlers/TopMekalaarsQueryHandler.cs:62 | entries are ordered by count, highest first; among equal counts the broker whose first offer came earlier goes first |
| `Ranking.TopMakelaarsSize` | Makelaars/Application/QueryHandlers/TopMekalaarsQueryHandler.cs:54-63 | the ranking holds ten brokers, or all of them when there are fewer, and no broker twice |
| `Ranking.SortedHasBroker` | Makelaars/Application/QueryHandlers/TopMekalaarsQueryHandler.cs:54-62 | every broker of the offers appears among the sorted groups |
| `Ranking.MissingBrokerOutranked` | Makelaars/Application/QueryHandlers/TopMekalaarsQueryHandler.cs:62-63 | a broker left out of the ranking implies the ranking is full, and every entry outranks that broker |
| `Ranking.TopMakelaarsKeepsBest` | Makelaars/Application/QueryHandlers/TopMekalaarsQueryHandler.cs:62-63 | no broker left out beats one that is kept: whenever a broker is missing, the ranking is full and each entry outranks it |
| `Ranking.TopMakelaarsOfNoOffers` | Makelaars/Application/QueryHandlers/TopMekalaarsQueryHandler.cs:53-69 | no offers give an empty ranking |
| `Scenarios.BuildsSearchCommands` | Makelaars.Tests/Application/QueryHandlers/TopMekalaarsQueryHandlerTests.cs:28-64 | Amsterdam with garden gives `/Amsterdam/tuin/` and Leiden without gives `/Leiden/`; with an empty or missing location the command is `/tuin/` or `/` |
| `Scenarios.BuyTypeValue` | Makelaars/Infrastructure/Funda/FundaApiClient.cs:49-53 | the type parameter for `Koop` is `koop` |
| `Scenarios.BatchesListings` | Makelaars.Tests/Application/QueryHandlers/TopMekalaarsQueryHandlerTests.cs:188-199 | the offers the tests build have, for each broker, the listing count the test data gives it |
| `Scenarios.RanksFourByCount` | Makelaars.Tests/Application/QueryHandlers/TopMekalaarsQueryHandlerTests.cs:67-95 | any offers with brokers 1 to 4 holding 2, 20, 13 and 40 listings rank 4, 2, 3, 1 |
| `Scenarios.RanksFourBrokers` | Makelaars.Tests/Application/QueryHandlers/TopMekalaarsQueryHandlerTests.cs:82-94 | the test's four brokers rank 4, 2, 3, 1 |
| `Scenarios.LimitsTwelveBrokersToTen` | Makelaars.Tests/Application/QueryHandlers/TopMekalaarsQueryHandlerTests.cs:98-131 | with twelve brokers the ranking holds ten |
| `Scenarios.CopyIncreaseTwice` | Makelaars/Application/QueryHandlers/TopMekalaarsQueryHandler.cs:41 | two `Copy().IncreasePage()` calls on page-1 options both give page 2 and leave the original at page 1 |

## Left out

- HTTP, JSON and the client's lifetime. The `HttpClient` and its `Accept`
  header, `GetAsync`, reading the body, `JsonConvert.DeserializeAnonymousType`
  and `Dispose` are not modelled. The decoded body is an input, and a
  request is modelled as its URL parts.
- `UriBuilder`: escaping and `Uri.AbsoluteUri` normalisation are not modelled.
  `BuildRequestUrl` stops at the base URL, path and query that the client sets.
- Concurrency in `Parallel.For`. `MaxDegreeOfParallelism`, the `lock`,
  cancellation, and the fact that the `async` lambda's requests are not
  awaited are not modelled. The model takes as input the responses merged
  before ranking, in arrival order.
- `FundaApiClient.GetOffersRequestRoundTrip`: the read-back holds only when
  the search command has no `&`. The code does not escape parameter values,
  so with an `&` the query cannot be read back, as
  `FundaApiClient.AmpersandInValueAmbiguous` shows.
- The handler never looks at `StatusCode`, and neither does the model.
- `Text.ToLowerAscii`: only ASCII letters are lower-cased. `ToLower()` in the
  current culture is not modelled; the only type name, `Koop`, is ASCII.
- `Decimal.ParseFormat`: this models invariant-culture formatting of `int`.
  Culture-specific digits and signs are not modelled.
- Null elements inside `Objects` are not modelled. Each decoded object is
  assumed present, because the C# code would throw a `NullReferenceException`
  on a null element during the lazy mapping.
- Lazy LINQ evaluation. The model numbers the ranking once. In the C# code,
  `Makelaars` is a lazy query that closes over `rank`. Enumerating it a
  second time would continue the numbering from 11 (or from however many
  entries there were plus one).
- `Count()` overflow beyond `int.MaxValue` offers for one broker is not
  modelled. Counts are unbounded naturals.
- `IsVerkocht` and `VerkoopStatus` are carried through but never used.
  `FundaApiClientOptions.DefaultPageSize` is kept in the options, but the
  C# code never reads it.
- The application glue is not part of this model: `Program`,
  `MakelaarApplication`, dependency injection and console output.
- The unit tests are written against an API the code no longer has. They
  mock a `GetAllOffers` call on the feed client that takes a status-update
  callback and returns a `GetAllOffersResult`, which holds only `Offers`
  (Makelaars/Infrastructure/Funda/Results/GetAllOffers.cs:6-9). They also set
  a `StatusUpdate` callback on the query, and they expect the handler's
  result to carry an `Error` status and an `Error` field
  (Makelaars.Tests/Application/QueryHandlers/TopMekalaarsQueryHandlerTests.cs:151-153, :180).
  `TopMakalaarsQuery` has only `Location` and `WithGarden`, and
  `TopMakelaarsResultStatus` has only `Ok`. So `ShouldHandleApiError` and
  `ShouldTriggerStatusUpdate` have no counterpart here. An exception from the
  feed is not caught by the handler; in the model the feed's answers are
  inputs, so none arises. `MakelaarApplication` subscribes to a
  `RateLimitingUpdated` event and sets the same progress callback on the
  query. The handler and the feed client shown here neither raise that event
  nor call that callback. No code retries a request. The model follows the
  code: its only outcomes are an `Ok` result and the two exceptions above.
- A null first response and a first response without paging both surface as
  `NullReferenceException`. That follows the code, which reads
  `initialGetOffersResult.Paging.TotalPages` without a check, rather than
  treating a missing page count as a single page.

## Findings

| source | as written | input that shows it | evidently intended | confidence | as-written member | corrected member |
|---|---|---|---|---|---|---|
| Makelaars/Application/QueryHandlers/TopMekalaarsQueryHandler.cs:39-42 | each iteration sends `options.Copy().IncreasePage()`, which always asks for page 2; the loop index `i` is not used | a first response that reports 3 pages: the handler asks for pages 1, 2, 2 and page 3 is never fetched, so its offers are missing from the ranking | iteration `i` asks for page `i`, so pages 1 to the total are each fetched once | high; not executed | `QueryHandler.AsWrittenSkipsPages` | `QueryHandler.IntendedRequestsCoverPages` |

`QueryHandler.Handle` models the handler as written. Its contract shows the
repeated page-2 requests through `QueryHandler.AsWrittenLaterRequests`.
`QueryHandler.IntendedLaterRequests` is the corrected request list.
If the feed answers each page-2 request with page 2's offers, those offers
are merged once per later request, which inflates the counts of the brokers
on page 2. The model takes the later responses as inputs, so it does not
state this effect.
