/** The records the feed client hands to the application. */
module Models {
  import opened Optional
  import opened Int32s

  /** A `System.Guid`, seen as its 128-bit value. */
  type Guid = x: nat | x < 0x1_0000_0000_0000_0000_0000_0000_0000_0000

  /** `System.Net.HttpStatusCode`, an enumeration over `int`. */
  type StatusCode = int32

  /** One listing of the feed and the broker (makelaar) that lists it. */
  datatype Offer = Offer(
    id: Guid,
    makelaarId: int32,
    makelaarNaam: Option<string>,
    isVerkocht: bool,
    verkoopStatus: Option<string>)

  /** Paging metadata of one feed page. */
  datatype PagingInfo = PagingInfo(
    totalPages: int32,
    currentPage: int32,
    nextUrl: Option<string>,
    previousUrl: Option<string>)

  /** The exceptions the modelled code can throw. */
  datatype Exception =
    | ArgumentNullException(paramName: string)
    | NullReferenceException
}
