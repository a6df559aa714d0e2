// The records of models/entry.go, plus the small failure-carrying
// wrappers the rest of the model uses for Go's (value, error) returns.

module Models {

  /** A creation time. Go's time.Time is modelled as an integer instant;
      only its ordering is ever used. */
  type Timestamp = int

  /** time.Time.Before: t is strictly earlier than u. */
  predicate Before(t: Timestamp, u: Timestamp)
  {
    t < u
  }

  /** One content entry (EntryResult). The service fills the creation time
      under the name CreatedTime; both names denote this one field. */
  datatype EntryResult = EntryResult(title: string, url: string, createdAt: Timestamp)

  /** One page of the paginated listing (PaginatedResponse). */
  datatype PaginatedResponse = PaginatedResponse(entries: seq<EntryResult>, nextCursor: string, hasMore: bool)

  /** Parsed query parameters (PaginationParams): the cursor as given,
      the effective page size and the offset the cursor denotes. */
  datatype PaginationParams = PaginationParams(cursor: string, pageSize: int, offset: int)

  /** The default page size of the configuration (config/config.go). */
  const DefaultPageSize: int := 20

  datatype Option<T> = None | Some(value: T)

  /** A Go (value, error) pair: exactly one of the two is meaningful. */
  datatype Result<T> = Ok(value: T) | Err(error: string)
}
