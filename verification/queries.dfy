/** The application-level query and its result. */
module Queries {
  import opened Optional
  import opened Int32s

  /** Which listings to rank: those in a location, possibly only those with a garden. */
  datatype TopMakalaarsQuery = TopMakalaarsQuery(location: Option<string>, withGarden: bool)

  /** One broker of the ranking. A rank of 0 is the unset default. */
  datatype TopMakelaar = TopMakelaar(id: int32, name: Option<string>, listingCount: nat, rank: nat)

  /** `TopMakelaarsResultStatus` has a single member, `Ok`. */
  datatype TopMakelaarsResultStatus = Ok

  datatype TopMakelaarsResult = TopMakelaarsResult(
    makelaars: seq<TopMakelaar>,
    status: TopMakelaarsResultStatus)
}
